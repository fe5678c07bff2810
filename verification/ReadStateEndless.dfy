/**
 * Every room that echoes changes without end: for each case of `Echoes` a run into
 * a state from which the bridge turns in a circle, and the circle itself.
 */
module ReadStateEndless {
  import opened Wrappers
  import opened ReadState
  import opened ReadStateEcho
  import opened ReadStateLimits

  // ----- Two circles -----------------------------------------------------------------------------

  /** The mark keeps taking the latest mail away, and a receipt keeps bringing it back. */
  predicate FlagSpins(t: Thread, w: Setting, s: Room) {
    && t.latest.Some? && t.latest.value in s.receipts
    && s.marked && s.syncer.SyncIdle? && (s.gated ==> w.flagReadsFail)
  }

  /** Mail `x` is mirrored as read and mail `y` as unread, and neither gate is written. */
  predicate MailsSpin(w: Setting, s: Room, x: Email, y: Email) {
    && s.poll.at.Idle?
    && x in s.seen && (x in s.synced ==> w.gateReadsFail)
    && y in s.synced && y !in s.seen
  }

  ghost predicate Spins(t: Thread, w: Setting, s: Room) {
    FlagSpins(t, w, s) || exists x, y :: MailsSpin(w, s, x, y)
  }

  lemma {:induction false} EffectiveConcat(t: Thread, s: Room, xs: seq<Step>, ys: seq<Step>)
    ensures EffectiveSteps(t, s, xs + ys) == EffectiveSteps(t, s, xs) + EffectiveSteps(t, Run(t, s, xs), ys)
    decreases |xs|
  {
    hide Next, SameCore;
    if xs == [] {
      assert xs + ys == ys;
    } else {
      assert (xs + ys)[0] == xs[0] && (xs + ys)[1..] == xs[1..] + ys;
      EffectiveConcat(t, Next(t, s, xs[0]), xs[1..], ys);
    }
  }

  lemma {:induction false} ChangeIsEffective(t: Thread, s: Room, steps: seq<Step>)
    requires !SameCore(s, Run(t, s, steps))
    ensures EffectiveSteps(t, s, steps) >= 1
    decreases |steps|
  {
    hide Next;
    if steps != [] && SameCore(s, Next(t, s, steps[0])) {
      ChangeIsEffective(t, Next(t, s, steps[0]), steps[1..]);
    }
  }

  lemma RunTwo(t: Thread, s: Room, a: Step, b: Step)
    ensures Run(t, s, [a, b]) == Next(t, Next(t, s, a), b)
  {
    hide Next;
    assert [a, b][1..] == [b];
    RunOne(t, Next(t, s, a), b);
  }

  lemma FlagTurn(t: Thread, w: Setting, s: Room) returns (steps: seq<Step>)
    requires FlagSpins(t, w, s)
    ensures Feasible(t, w, steps) && FlagSpins(t, w, Run(t, s, steps)) && EffectiveSteps(t, s, steps) >= 1
  {
    var l := t.latest.value;
    var head := [ReadFlag, if s.gated then MisreadFlagGate else ApplyFlag, SaveFlagGateFails];
    var s1 := s.(seen := s.seen - {l}, flagRead := None);
    RunThree(t, s, head[0], head[1], head[2]);
    assert Run(t, s, head) == s1;
    RunOne(t, s1, DeliverReceipt(l, false));
    assert Feasible(t, w, head) && Feasible(t, w, [DeliverReceipt(l, false)]);
    var s2 := Run(t, s1, [DeliverReceipt(l, false)]);
    assert s2 == s1.(seen := s1.seen + {l});
    assert l in s2.seen && l !in s1.seen;
    hide Run, Feasible, EffectiveSteps, Next;
    ChangeIsEffective(t, s1, [DeliverReceipt(l, false)]);
    EffectiveConcat(t, s, head, [DeliverReceipt(l, false)]);
    FeasibleConcat(t, w, s, head, [DeliverReceipt(l, false)]);
    steps := head + [DeliverReceipt(l, false)];
  }

  /** The first half: mail `x` clears the flag, and the next page holds mail `y`. */
  lemma MailReadAgain(t: Thread, w: Setting, s: Room, x: Email, y: Email) returns (steps: seq<Step>)
    requires MailsSpin(w, s, x, y)
    ensures Feasible(t, w, steps)
    ensures
      var s' := s.(receipts := s.receipts + {x}, marked := false, poll := Reader(map[y := false], Idle));
      Run(t, s, steps) == s'
  {
    var take := if x in s.synced then MisreadGate(Poll, x) else Mirror(Poll, x);
    var s1 := s.(poll := Reader(map[x := true], Idle));
    steps := [Fetch(Poll, {x}), take, ClearFlag(Poll), GiveUp(Poll), Fetch(Poll, {y})];
    assert map[x := true] - {x} == map[];
    RunFive(t, s, steps[0], steps[1], steps[2], steps[3], steps[4]);
    assert Next(t, s, Fetch(Poll, {x})) == s1;
    assert Next(t, s1, take) == s1.(receipts := s.receipts + {x}, poll := Reader(map[], ClearFlagNext(x)));
  }

  /** The second half: mail `y` sets it again. */
  lemma MailUnreadAgain(t: Thread, w: Setting, s: Room, y: Email) returns (steps: seq<Step>)
    requires s.poll == Reader(map[y := false], Idle) && y in s.synced
    ensures Feasible(t, w, steps)
    ensures Run(t, s, steps) == s.(marked := true, poll := Reader(map[], Idle))
  {
    steps := [Mirror(Poll, y), GiveUp(Poll)];
    assert map[y := false] - {y} == map[];
    RunTwo(t, s, steps[0], steps[1]);
  }

  lemma MailsTurn(t: Thread, w: Setting, s: Room, x: Email, y: Email) returns (steps: seq<Step>)
    requires MailsSpin(w, s, x, y)
    ensures Feasible(t, w, steps) && MailsSpin(w, Run(t, s, steps), x, y) && EffectiveSteps(t, s, steps) >= 1
  {
    var head := MailReadAgain(t, w, s, x, y);
    var s1 := Run(t, s, head);
    hide Run, Feasible, EffectiveSteps;
    var tail := MailUnreadAgain(t, w, s1, y);
    ChangeIsEffective(t, s1, tail);
    EffectiveConcat(t, s, head, tail);
    FeasibleConcat(t, w, s, head, tail);
    steps := head + tail;
  }

  lemma Turn(t: Thread, w: Setting, s: Room) returns (steps: seq<Step>)
    requires Spins(t, w, s)
    ensures Feasible(t, w, steps) && Spins(t, w, Run(t, s, steps)) && EffectiveSteps(t, s, steps) >= 1
  {
    hide Feasible, Run, EffectiveSteps, FlagSpins, MailsSpin;
    if FlagSpins(t, w, s) {
      steps := FlagTurn(t, w, s);
    } else {
      var x, y :| MailsSpin(w, s, x, y);
      steps := MailsTurn(t, w, s, x, y);
    }
  }

  lemma {:induction false} SpinsOn(t: Thread, w: Setting, s: Room, n: nat) returns (steps: seq<Step>)
    requires Spins(t, w, s)
    ensures Feasible(t, w, steps) && n <= EffectiveSteps(t, s, steps)
    decreases n
  {
    if n == 0 {
      steps := [];
    } else {
      var first := Turn(t, w, s);
      var rest := SpinsOn(t, w, Run(t, s, first), n - 1);
      hide Run, Feasible, EffectiveSteps, Spins;
      FeasibleConcat(t, w, s, first, rest);
      EffectiveConcat(t, s, first, rest);
      steps := first + rest;
    }
  }

  // ----- Pieces of the runs into a circle ----------------------------------------------------------

  /** A run of this setting from `s` to `s'`. */
  ghost predicate Leads(t: Thread, w: Setting, s: Room, steps: seq<Step>, s': Room) {
    Feasible(t, w, steps) && Run(t, s, steps) == s'
  }

  lemma LeadsOn(t: Thread, w: Setting, s: Room, xs: seq<Step>, s1: Room, ys: seq<Step>, s2: Room)
    requires Leads(t, w, s, xs, s1) && Leads(t, w, s1, ys, s2)
    ensures Leads(t, w, s, xs + ys, s2)
  {
    FeasibleConcat(t, w, s, xs, ys);
  }

  lemma PollLeads(t: Thread, w: Setting, s: Room, k: Task, e: Email)
    requires ReaderOf(s, k).at.Idle? && (k.Poll? || (w.walking && e in t.emails))
    ensures Leads(t, w, s, PollOnce(k, e), AfterPoll(s, k, e))
  {
    RunPollOnce(t, s, k, e);
    PollIsPossible(t, w, k, e);
  }

  lemma SyncLeads(t: Thread, w: Setting, s: Room)
    requires LatestMapped(t) && s.syncer.SyncIdle?
    ensures Leads(t, w, s, SyncOnce(), AfterSync(s, t.latest.value))
  {
    RunSyncOnce(t, s);
    PollIsPossible(t, w, Poll, t.latest.value);
  }

  lemma ReceiptLeads(t: Thread, w: Setting, s: Room, e: Email)
    requires e in s.receipts
    ensures Leads(t, w, s, [DeliverReceipt(e, false)], s.(seen := s.seen + {e}))
  {
    RunOne(t, s, DeliverReceipt(e, false));
  }

  lemma FetchLeads(t: Thread, w: Setting, s: Room, k: Task, e: Email)
    requires ReaderOf(s, k).at.Idle? && (k.Poll? || (w.walking && e in t.emails))
    ensures Leads(t, w, s, [Fetch(k, {e})], WithReader(s, k, Reader(map[e := e in s.seen], Idle)))
  {
    RunOne(t, s, Fetch(k, {e}));
  }

  /** The mark is handled although its gate is set. */
  lemma ReapplyLeads(t: Thread, w: Setting, s: Room)
    requires t.latest.Some? && w.flagReadsFail && s.syncer.SyncIdle? && s.flagRead == Some(true)
    ensures
      Leads(t, w, s, [MisreadFlagGate, SaveFlagGate],
        s.(flagRead := None, seen := s.seen - {t.latest.value}, gated := true))
  {
    RunTwo(t, s, MisreadFlagGate, SaveFlagGate);
  }

  /** The poller takes a mail up as newly read, and gets no further than its receipt. */
  lemma ReceiptOnlyLeads(t: Thread, w: Setting, s: Room, e: Email)
    requires s.poll.at.Idle? && e in s.seen && (e in s.synced ==> w.gateReadsFail)
    ensures
      var take := if e in s.synced then MisreadGate(Poll, e) else Mirror(Poll, e);
      Leads(t, w, s, [Fetch(Poll, {e}), take, GiveUp(Poll)],
        s.(receipts := s.receipts + {e}, poll := Reader(map[], Idle)))
  {
    var take := if e in s.synced then MisreadGate(Poll, e) else Mirror(Poll, e);
    assert map[e := true] - {e} == map[];
    assert Next(t, s, Fetch(Poll, {e})) == s.(poll := Reader(map[e := true], Idle));
    RunThree(t, s, Fetch(Poll, {e}), take, GiveUp(Poll));
  }

  // ----- Stale views ----------------------------------------------------------------------------------

  /**
   * A reader still takes a mail for read that became unread, and it is the latest one or
   * leaves the latest one to the mark.
   */
  lemma StaleReadSpins(t: Thread, w: Setting, s: Room, o: Task, x: Email) returns (steps: seq<Step>)
    requires LatestMapped(t) && Undisturbed(s) && (o.Poll? || w.walking)
    requires x in ReaderOf(s, o).fetched && ReaderOf(s, o).fetched[x] && x !in s.seen && x !in s.synced
    requires x == t.latest.value || t.latest.value in s.synced
    ensures Feasible(t, w, steps) && Spins(t, w, Run(t, s, steps))
  {
    var l := t.latest.value;
    var head := [Mirror(o, x), ClearFlag(o), SaveGate(o)];
    var s1 := Finished(TakeUp(s, o, x, false), o);
    assert Leads(t, w, s, head, s1) by { RunThree(t, s, head[0], head[1], head[2]); }
    var s2 := AfterSync(s1, l);
    var s3 := AfterPoll(s2, Poll, x);
    assert !s2.gated && s3.marked && !s3.gated && s3.synced == s.synced - {x} && x in s3.receipts;
    assert s1.syncer.SyncIdle? && s2.poll.at.Idle? && s3.poll.at.Idle? && s3.syncer.SyncIdle?;
    hide Leads, AfterPoll, AfterSync, Finished, TakeUp;
    SyncLeads(t, w, s1);
    PollLeads(t, w, s2, Poll, x);
    LeadsOn(t, w, s, head, s1, SyncOnce(), s2);
    LeadsOn(t, w, s, head + SyncOnce(), s2, PollOnce(Poll, x), s3);
    steps := head + SyncOnce() + PollOnce(Poll, x);
    if x == l {
      assert FlagSpins(t, w, s3);
      LeadsSpins(t, w, s, steps, s3);
    } else {
      var rest := TugSpins(t, w, s3, x);
      SpinsAfter(t, w, s, steps, s3, rest);
      steps := steps + rest;
    }
  }

  lemma LeadsSpins(t: Thread, w: Setting, s: Room, steps: seq<Step>, s': Room)
    requires Leads(t, w, s, steps, s') && Spins(t, w, s')
    ensures Feasible(t, w, steps) && Spins(t, w, Run(t, s, steps))
  {
    hide Spins, Run, Feasible;
  }

  lemma SpinsAfter(t: Thread, w: Setting, s: Room, xs: seq<Step>, s1: Room, ys: seq<Step>)
    requires Leads(t, w, s, xs, s1) && Feasible(t, w, ys) && Spins(t, w, Run(t, s1, ys))
    ensures Feasible(t, w, xs + ys) && Spins(t, w, Run(t, s, xs + ys))
  {
    hide Spins;
    FeasibleConcat(t, w, s, xs, ys);
  }

  /** The receipt of a mail whose gate was dropped arrives, and the mark takes the latest mail away. */
  lemma TugSpins(t: Thread, w: Setting, s: Room, x: Email) returns (steps: seq<Step>)
    requires LatestMapped(t) && Undisturbed(s) && s.marked && !s.gated
    requires x != t.latest.value && x in s.receipts && x !in s.synced && t.latest.value in s.synced
    ensures Feasible(t, w, steps) && Spins(t, w, Run(t, s, steps))
  {
    var s1 := s.(seen := s.seen + {x});
    var s2 := AfterSync(s1, t.latest.value);
    assert MailsSpin(w, s2, x, t.latest.value);
    hide Leads, AfterSync, MailsSpin;
    ReceiptLeads(t, w, s, x);
    SyncLeads(t, w, s1);
    LeadsOn(t, w, s, [DeliverReceipt(x, false)], s1, SyncOnce(), s2);
    steps := [DeliverReceipt(x, false)] + SyncOnce();
    LeadsSpins(t, w, s, steps, s2);
  }

  /** A reader still takes a mail for unread that became read. */
  lemma StaleUnreadSpins(t: Thread, w: Setting, s: Room, o: Task, x: Email) returns (steps: seq<Step>)
    requires LatestMapped(t) && Undisturbed(s) && !s.gated && (o.Poll? || w.walking)
    requires x in ReaderOf(s, o).fetched && !ReaderOf(s, o).fetched[x] && x in s.seen && x in s.synced
    requires t.latest.value in s.seen && t.latest.value in s.synced
    ensures Feasible(t, w, steps) && Spins(t, w, Run(t, s, steps))
  {
    var l := t.latest.value;
    var head := [Mirror(o, x), DropGate(o)];
    var s1 := Finished(TakeUp(s, o, x, true), o);
    assert Leads(t, w, s, head, s1) by { RunTwo(t, s, head[0], head[1]); }
    assert s1.marked && !s1.gated && s1.synced == s.synced - {x} && s1.seen == s.seen;
    assert s1.poll.at.Idle? && s1.syncer.SyncIdle?;
    hide Finished, TakeUp;
    if x == l {
      var tail := [Fetch(Poll, {l}), Mirror(Poll, l), GiveUp(Poll)];
      var s2 := s1.(receipts := s1.receipts + {l}, poll := Reader(map[], Idle));
      assert FlagSpins(t, w, s2);
      hide Leads, FlagSpins;
      ReceiptOnlyLeads(t, w, s1, l);
      LeadsOn(t, w, s, head, s1, tail, s2);
      steps := head + tail;
      LeadsSpins(t, w, s, steps, s2);
    } else {
      var s2 := AfterSync(s1, l);
      assert MailsSpin(w, s2, x, l);
      hide Leads, AfterSync, MailsSpin;
      SyncLeads(t, w, s1);
      LeadsOn(t, w, s, head, s1, SyncOnce(), s2);
      steps := head + SyncOnce();
      LeadsSpins(t, w, s, steps, s2);
    }
  }

  // ----- Stale receipts -------------------------------------------------------------------------------

  /** After the action, a run of this setting into a circle. */
  ghost predicate Circles(t: Thread, s0: Room, a: Action, w: Setting, steps: seq<Step>) {
    Feasible(t, w, steps) && Spins(t, w, Run(t, Act(s0, a), steps))
  }

  lemma ReceiptEchoCircles(t: Thread, s0: Room, a: Action, w: Setting) returns (steps: seq<Step>)
    requires LatestMapped(t) && Quiet(t, s0) && ReceiptEchoes(t, s0, a)
    ensures Circles(t, s0, a, w, steps)
  {
    var s, l := Act(s0, a), t.latest.value;
    var r :| r in s0.receipts && r !in TargetSeen(t, s0, a);
    if a.RoomMarkUnread? {
      assert FlagSpins(t, w, s);
      steps := [];
    } else {
      var s1 := AfterPoll(s, Poll, a.email);
      assert s1.marked && !s1.gated && s1.synced == s0.seen - {a.email} && s1.receipts == s0.receipts;
      assert Undisturbed(s1);
      hide Leads, AfterPoll;
      PollLeads(t, w, s, Poll, a.email);
      steps := PollOnce(Poll, a.email);
      if l in s0.receipts {
        assert FlagSpins(t, w, s1);
        LeadsSpins(t, w, s, steps, s1);
      } else {
        var rest := TugSpins(t, w, s1, a.email);
        SpinsAfter(t, w, s, steps, s1, rest);
        steps := steps + rest;
      }
    }
  }

  // ----- Misread `read_synced` gates --------------------------------------------------------------------

  /** The mail the action made unread is still in the batch of the poller, which cannot read its gate. */
  lemma MisreadEntryCircles(t: Thread, s0: Room, a: Action, w: Setting) returns (steps: seq<Step>)
    requires LatestMapped(t) && Quiet(t, s0) && w.gateReadsFail
    requires a == MailUnread(t.latest.value) && a.email in s0.seen && a.email in s0.poll.fetched
    ensures Circles(t, s0, a, w, steps)
  {
    var s, l := Act(s0, a), t.latest.value;
    var head := [MisreadGate(Poll, l), ClearFlag(Poll), GiveUp(Poll)];
    var s1 := s.(poll := Reader(s.poll.fetched - {l}, Idle), receipts := s.receipts + {l}, marked := false);
    assert Leads(t, w, s, head, s1) by { RunThree(t, s, head[0], head[1], head[2]); }
    var s2 := AfterSync(s1, l);
    var s3 := AfterPoll(s2, Poll, l);
    assert s1.syncer.SyncIdle? && s2.poll.at.Idle? && FlagSpins(t, w, s3);
    hide Leads, AfterPoll, AfterSync, FlagSpins;
    SyncLeads(t, w, s1);
    PollLeads(t, w, s2, Poll, l);
    LeadsOn(t, w, s, head, s1, SyncOnce(), s2);
    LeadsOn(t, w, s, head + SyncOnce(), s2, PollOnce(Poll, l), s3);
    steps := head + SyncOnce() + PollOnce(Poll, l);
    LeadsSpins(t, w, s, steps, s3);
  }

  lemma GateReadEchoCircles(t: Thread, s0: Room, a: Action, w: Setting) returns (steps: seq<Step>)
    requires LatestMapped(t) && Quiet(t, s0) && w.gateReadsFail && GateReadEchoes(t, s0, a)
    ensures Circles(t, s0, a, w, steps)
  {
    var s, l := Act(s0, a), t.latest.value;
    if a.RoomMarkUnread? {
      var s1 := s.(receipts := s.receipts + {l}, poll := Reader(map[], Idle));
      assert FlagSpins(t, w, s1);
      steps := [Fetch(Poll, {l}), MisreadGate(Poll, l), GiveUp(Poll)];
      assert l in s.seen && l in s.synced;
      hide Leads, FlagSpins;
      ReceiptOnlyLeads(t, w, s, l);
      LeadsSpins(t, w, s, steps, s1);
    } else if x :| x in s0.seen - {a.email} {
      assert MailsSpin(w, s, x, a.email);
      steps := [];
    } else {
      assert s0.seen - {a.email} == {};
      steps := MisreadEntryCircles(t, s0, a, w);
    }
  }

  // ----- A misread `marked_unread` gate ------------------------------------------------------------------

  lemma FlagLeads(t: Thread, w: Setting, s: Room)
    requires s.syncer.SyncIdle? && s.marked
    ensures Leads(t, w, s, [ReadFlag], s.(flagRead := Some(true)))
  {
    RunOne(t, s, ReadFlag);
  }

  /** A mark read before it was cleared is applied again, and a receipt for the latest mail is under way. */
  lemma ReapplyCircles(t: Thread, w: Setting, s: Room) returns (steps: seq<Step>)
    requires LatestMapped(t) && Undisturbed(s) && w.flagReadsFail
    requires s.flagRead == Some(true) && t.latest.value in s.receipts
    ensures Feasible(t, w, steps) && Spins(t, w, Run(t, s, steps))
  {
    var l := t.latest.value;
    var s1 := s.(seen := s.seen + {l});
    var s2 := AfterPoll(s1, Poll, l);
    var s3 := s2.(flagRead := None, seen := s2.seen - {l}, gated := true);
    var s4 := AfterPoll(s3, Poll, l);
    assert s2.syncer.SyncIdle? && s2.flagRead == Some(true) && s2.poll.at.Idle? && l in s2.receipts && l in s2.synced;
    hide Leads;
    ReceiptLeads(t, w, s, l);
    PollLeads(t, w, s1, Poll, l);
    ReapplyLeads(t, w, s2);
    PollLeads(t, w, s3, Poll, l);
    assert FlagSpins(t, w, s4);
    hide AfterPoll, FlagSpins;
    LeadsOn(t, w, s, [DeliverReceipt(l, false)], s1, PollOnce(Poll, l), s2);
    LeadsOn(t, w, s, [DeliverReceipt(l, false)] + PollOnce(Poll, l), s2, [MisreadFlagGate, SaveFlagGate], s3);
    steps := [DeliverReceipt(l, false)] + PollOnce(Poll, l) + [MisreadFlagGate, SaveFlagGate];
    LeadsOn(t, w, s, steps, s3, PollOnce(Poll, l), s4);
    steps := steps + PollOnce(Poll, l);
    LeadsSpins(t, w, s, steps, s4);
  }

  /** A receipt for the latest mail is under way once the mark is applied again. */
  lemma OwnReceiptCircles(t: Thread, w: Setting, s: Room) returns (steps: seq<Step>)
    requires LatestMapped(t) && Undisturbed(s) && w.flagReadsFail
    requires s.marked || s.flagRead == Some(true)
    requires t.latest.value in s.receipts
    ensures Feasible(t, w, steps) && Spins(t, w, Run(t, s, steps))
  {
    if s.marked {
      assert FlagSpins(t, w, s);
      steps := [];
    } else {
      steps := ReapplyCircles(t, w, s);
    }
  }

  /** The mark is read, if it was not before. */
  lemma FlagIsRead(t: Thread, w: Setting, s: Room) returns (steps: seq<Step>)
    requires s.syncer.SyncIdle? && (s.marked || s.flagRead == Some(true))
    ensures Leads(t, w, s, steps, s.(flagRead := Some(true)))
  {
    if s.flagRead == Some(true) {
      steps := [];
    } else {
      steps := [ReadFlag];
      FlagLeads(t, w, s);
    }
  }

  /** Mail `x` is still to be mirrored as read when the mark takes the latest mail away once more. */
  lemma PendingReadCircles(t: Thread, w: Setting, s: Room, x: Email) returns (steps: seq<Step>)
    requires LatestMapped(t) && Undisturbed(s) && w.flagReadsFail
    requires s.marked || s.flagRead == Some(true)
    requires x != t.latest.value && x in s.seen && x !in s.synced && t.latest.value in s.synced
    ensures Feasible(t, w, steps) && Spins(t, w, Run(t, s, steps))
  {
    var l := t.latest.value;
    var head := FlagIsRead(t, w, s);
    var s1 := s.(flagRead := Some(true));
    var s2 := s1.(flagRead := None, seen := s1.seen - {l}, gated := true);
    assert MailsSpin(w, s2, x, l);
    hide Leads, MailsSpin;
    ReapplyLeads(t, w, s1);
    LeadsOn(t, w, s, head, s1, [MisreadFlagGate, SaveFlagGate], s2);
    steps := head + [MisreadFlagGate, SaveFlagGate];
    LeadsSpins(t, w, s, steps, s2);
  }

  /** The walk took the latest mail for read before the mark took it away once more. */
  lemma WalkedReadCircles(t: Thread, w: Setting, s: Room) returns (steps: seq<Step>)
    requires LatestMapped(t) && Undisturbed(s) && w.flagReadsFail && w.walking
    requires s.marked || s.flagRead == Some(true)
    requires t.latest.value in s.seen && t.latest.value in s.synced
    ensures Feasible(t, w, steps) && Spins(t, w, Run(t, s, steps))
  {
    var l := t.latest.value;
    var s1 := s.(walk := Reader(map[l := true], Idle));
    var head := FlagIsRead(t, w, s1);
    var s2 := s1.(flagRead := Some(true));
    var s3 := s2.(flagRead := None, seen := s2.seen - {l}, gated := true);
    var s4 := AfterPoll(s3, Poll, l);
    var tail := [Mirror(Walk, l), GiveUp(Walk)];
    var s5 := s4.(walk := Reader(map[], Idle), receipts := s4.receipts + {l});
    assert s4.marked && l !in s4.synced && s4.walk == Reader(map[l := true], Idle) && s4.syncer.SyncIdle?;
    assert map[l := true] - {l} == map[];
    assert Leads(t, w, s4, tail, s5) by { RunTwo(t, s4, tail[0], tail[1]); }
    assert FlagSpins(t, w, s5);
    FetchLeads(t, w, s, Walk, l);
    hide Leads, AfterPoll, FlagSpins;
    ReapplyLeads(t, w, s2);
    PollLeads(t, w, s3, Poll, l);
    LeadsOn(t, w, s, [Fetch(Walk, {l})], s1, head, s2);
    LeadsOn(t, w, s, [Fetch(Walk, {l})] + head, s2, [MisreadFlagGate, SaveFlagGate], s3);
    steps := [Fetch(Walk, {l})] + head + [MisreadFlagGate, SaveFlagGate];
    LeadsOn(t, w, s, steps, s3, PollOnce(Poll, l), s4);
    LeadsOn(t, w, s, steps + PollOnce(Poll, l), s4, tail, s5);
    steps := steps + PollOnce(Poll, l) + tail;
    LeadsSpins(t, w, s, steps, s5);
  }

  /** The user reads another mail, or the latest one, for the first time. */
  lemma NewReadCircles(t: Thread, s0: Room, a: Action, w: Setting) returns (steps: seq<Step>)
    requires LatestMapped(t) && Quiet(t, s0) && w.flagReadsFail && FlagReadEchoes(t, s0, a, w)
    requires ReadsNew(s0, a) && t.latest.value in TargetSeen(t, s0, a) && t.latest.value !in Act(s0, a).receipts
    ensures Circles(t, s0, a, w, steps)
  {
    var s, l, e := Act(s0, a), t.latest.value, a.email;
    if a.RoomRead? {
      var s1 := s.(seen := s.seen + {e});
      ReceiptLeads(t, w, s, e);
      var rest := PendingReadCircles(t, w, s1, e);
      SpinsAfter(t, w, s, [DeliverReceipt(e, false)], s1, rest);
      steps := [DeliverReceipt(e, false)] + rest;
    } else if e == l {
      var s1 := s.(receipts := s.receipts + {l}, poll := Reader(map[], Idle));
      assert FlagSpins(t, w, s1);
      ReceiptOnlyLeads(t, w, s, l);
      steps := [Fetch(Poll, {l}), Mirror(Poll, l), GiveUp(Poll)];
      LeadsSpins(t, w, s, steps, s1);
    } else {
      steps := PendingReadCircles(t, w, s, e);
    }
  }

  /** A stale receipt reads the mail again that the action made unread. */
  lemma StaleReadCircles(t: Thread, s0: Room, a: Action, w: Setting) returns (steps: seq<Step>)
    requires LatestMapped(t) && Quiet(t, s0) && w.flagReadsFail && s0.marked && !NoneStale(t, s0, a)
    requires t.latest.value in TargetSeen(t, s0, a)
    ensures Circles(t, s0, a, w, steps)
  {
    OneStaleReceipt(t, s0, a);
    var s, e := Act(s0, a), a.email;
    var s1 := AfterPoll(s, Poll, e);
    var s2 := s1.(seen := s1.seen + {e});
    assert e in s1.receipts && e !in s1.synced && s1.marked && t.latest.value in s1.synced && e != t.latest.value;
    assert Undisturbed(s2);
    PollLeads(t, w, s, Poll, e);
    hide AfterPoll, Leads, Quiet;
    ReceiptLeads(t, w, s1, e);
    LeadsOn(t, w, s, PollOnce(Poll, e), s1, [DeliverReceipt(e, false)], s2);
    var rest := PendingReadCircles(t, w, s2, e);
    steps := PollOnce(Poll, e) + [DeliverReceipt(e, false)];
    SpinsAfter(t, w, s, steps, s2, rest);
    steps := steps + rest;
  }

  /** The gate of the read latest mail cannot be read either. */
  lemma BothMisreadCircles(t: Thread, s0: Room, a: Action, w: Setting) returns (steps: seq<Step>)
    requires LatestMapped(t) && Quiet(t, s0) && w.flagReadsFail && w.gateReadsFail && s0.marked
    requires a.RoomRead? ==> s0.flagRead.Some?
    requires t.latest.value in Act(s0, a).seen && t.latest.value in s0.seen
    ensures Circles(t, s0, a, w, steps)
  {
    var s, l := Act(s0, a), t.latest.value;
    var s1 := s.(receipts := s.receipts + {l}, poll := Reader(map[], Idle));
    ReceiptOnlyLeads(t, w, s, l);
    var rest := OwnReceiptCircles(t, w, s1);
    SpinsAfter(t, w, s, [Fetch(Poll, {l}), MisreadGate(Poll, l), GiveUp(Poll)], s1, rest);
    steps := [Fetch(Poll, {l}), MisreadGate(Poll, l), GiveUp(Poll)] + rest;
  }

  /** Without a new read, the latest mail that is to be read was read before. */
  lemma OldReadIsSeen(t: Thread, s0: Room, a: Action)
    requires LatestMapped(t) && s0.marked && !ReadsNew(s0, a) && t.latest.value in TargetSeen(t, s0, a)
    ensures t.latest.value in Act(s0, a).seen && t.latest.value in s0.seen
  {
  }

  lemma FlagReadEchoCircles(t: Thread, s0: Room, a: Action, w: Setting) returns (steps: seq<Step>)
    requires LatestMapped(t) && Quiet(t, s0) && w.flagReadsFail && FlagReadEchoes(t, s0, a, w)
    ensures Circles(t, s0, a, w, steps)
  {
    if t.latest.value in Act(s0, a).receipts {
      steps := OwnReceiptCircles(t, w, Act(s0, a));
    } else if ReadsNew(s0, a) {
      steps := NewReadCircles(t, s0, a, w);
    } else if !NoneStale(t, s0, a) {
      steps := StaleReadCircles(t, s0, a, w);
    } else {
      OldReadIsSeen(t, s0, a);
      if w.gateReadsFail {
        steps := BothMisreadCircles(t, s0, a, w);
      } else {
        steps := WalkedReadCircles(t, w, Act(s0, a));
      }
    }
  }

  // ----- A second reader ----------------------------------------------------------------------------------

  /** Reader `o` still holds what it fetched of `x` while the other one settles the room. */
  lemma StaleEntryCircles(t: Thread, s0: Room, a: Action, w: Setting, first: seq<Step>, o: Task, r: Reader, x: Email)
    returns (steps: seq<Step>)
    requires LatestMapped(t) && ActsOn(t, a) && Quiet(t, s0) && w.walking
    requires Leads(t, w, Act(s0, a), first, WithReader(Act(s0, a), o, r))
    requires r.at.Idle? && x in r.fetched && r.fetched[x] != (x in TargetSeen(t, s0, a))
    requires
      if x in TargetSeen(t, s0, a) then !TargetMarked(s0, a) && t.latest.value in TargetSeen(t, s0, a)
      else x == t.latest.value || t.latest.value in TargetSeen(t, s0, a)
    ensures Circles(t, s0, a, w, steps)
  {
    var start, to := Act(s0, a), TargetSeen(t, s0, a);
    var s1 := WithReader(start, o, r);
    var settling := SettlingRun(t, s0, a, w, Other(o), r);
    var s2 := Run(t, s1, settling);
    assert Undisturbed(s2) && s2.seen == s2.synced == to && s2.gated == TargetMarked(s0, a) && ReaderOf(s2, o) == r;
    hide Quiet, AtTarget;
    var rest: seq<Step>;
    if x in to {
      rest := StaleUnreadSpins(t, w, s2, o, x);
    } else {
      rest := StaleReadSpins(t, w, s2, o, x);
    }
    hide Run, Feasible, Spins;
    FeasibleConcat(t, w, s1, settling, rest);
    SpinsAfter(t, w, start, first, s1, settling + rest);
    steps := first + (settling + rest);
  }

  /** What the walk fetches right after an action that is not complete at once goes stale. */
  lemma LateChangeCircles(t: Thread, s0: Room, a: Action, w: Setting) returns (steps: seq<Step>)
    requires LatestMapped(t) && ActsOn(t, a) && Quiet(t, s0) && w.walking && !ActsAtOnce(t, s0, a)
    requires t.latest.value in s0.seen + TargetSeen(t, s0, a)
    ensures Circles(t, s0, a, w, steps)
  {
    var start, to := Act(s0, a), TargetSeen(t, s0, a);
    var x :| (x in start.seen) != (x in to);
    var r := Reader(map[x := x in start.seen], Idle);
    FetchLeads(t, w, start, Walk, x);
    steps := StaleEntryCircles(t, s0, a, w, [Fetch(Walk, {x})], Walk, r, x);
  }

  lemma FetchedEntryCircles(t: Thread, s0: Room, a: Action, w: Setting) returns (steps: seq<Step>)
    requires LatestMapped(t) && ActsOn(t, a) && Quiet(t, s0) && w.walking
    requires ActsAtOnce(t, s0, a) && !FetchedUnaffected(t, s0, a)
    requires t.latest.value in s0.seen + TargetSeen(t, s0, a)
    ensures Circles(t, s0, a, w, steps)
  {
    var x :| (x in s0.poll.fetched || x in s0.walk.fetched) && (x in s0.seen) != (x in TargetSeen(t, s0, a));
    var o := if x in s0.poll.fetched then Poll else Walk;
    assert Leads(t, w, Act(s0, a), [], WithReader(Act(s0, a), o, ReaderOf(s0, o)));
    steps := StaleEntryCircles(t, s0, a, w, [], o, ReaderOf(s0, o), x);
  }

  /** The walk takes a mail for unread that a stale receipt reads again. */
  lemma WalkedStaleCircles(t: Thread, s0: Room, a: Action, w: Setting) returns (steps: seq<Step>)
    requires LatestMapped(t) && Quiet(t, s0) && w.walking && !NoneStale(t, s0, a) && !ReceiptEchoes(t, s0, a)
    requires t.latest.value in s0.seen + TargetSeen(t, s0, a)
    ensures Circles(t, s0, a, w, steps)
  {
    OneStaleReceipt(t, s0, a);
    var s, e := Act(s0, a), a.email;
    var s1 := s.(walk := Reader(map[e := false], Idle));
    var s2 := AfterPoll(s1, Poll, e);
    var s3 := s2.(seen := s2.seen + {e});
    var s4 := AfterPoll(s3, Poll, e);
    var s5 := AfterSync(s4, t.latest.value);
    assert e in s2.receipts && e !in s2.synced && s2.poll.at.Idle? && s3.seen == s0.seen;
    assert s5.walk == Reader(map[e := false], Idle) && !s5.gated && s5.seen == s5.synced == s0.seen && Undisturbed(s5);
    FetchLeads(t, w, s, Walk, e);
    PollLeads(t, w, s1, Poll, e);
    PollLeads(t, w, s3, Poll, e);
    SyncLeads(t, w, s4);
    hide Leads, AfterPoll, AfterSync, Quiet;
    ReceiptLeads(t, w, s2, e);
    LeadsOn(t, w, s, [Fetch(Walk, {e})], s1, PollOnce(Poll, e), s2);
    steps := [Fetch(Walk, {e})] + PollOnce(Poll, e);
    LeadsOn(t, w, s, steps, s2, [DeliverReceipt(e, false)], s3);
    steps := steps + [DeliverReceipt(e, false)];
    LeadsOn(t, w, s, steps, s3, PollOnce(Poll, e), s4);
    LeadsOn(t, w, s, steps + PollOnce(Poll, e), s4, SyncOnce(), s5);
    steps := steps + PollOnce(Poll, e) + SyncOnce();
    var rest := StaleUnreadSpins(t, w, s5, Walk, e);
    SpinsAfter(t, w, s, steps, s5, rest);
    steps := steps + rest;
  }

  // ----- The exact condition ---------------------------------------------------------------------------------

  lemma EchoCircles(t: Thread, s0: Room, a: Action, w: Setting) returns (steps: seq<Step>)
    requires LatestMapped(t) && ActsOn(t, a) && Quiet(t, s0) && Echoes(t, s0, a, w)
    ensures Circles(t, s0, a, w, steps)
  {
    hide Quiet, Circles, NoneStale, FetchedUnaffected, ActsAtOnce, ReceiptEchoes, GateReadEchoes, FlagReadEchoes;
    if ReceiptEchoes(t, s0, a) {
      steps := ReceiptEchoCircles(t, s0, a, w);
    } else if w.gateReadsFail && GateReadEchoes(t, s0, a) {
      steps := GateReadEchoCircles(t, s0, a, w);
    } else if w.flagReadsFail && FlagReadEchoes(t, s0, a, w) {
      steps := FlagReadEchoCircles(t, s0, a, w);
    } else if !NoneStale(t, s0, a) {
      steps := WalkedStaleCircles(t, s0, a, w);
    } else if !ActsAtOnce(t, s0, a) {
      steps := LateChangeCircles(t, s0, a, w);
    } else {
      steps := FetchedEntryCircles(t, s0, a, w);
    }
  }

  ghost predicate BoundedBy(t: Thread, s: Room, w: Setting, n: nat) {
    forall steps | PossibleRun(w, steps) :: EffectiveSteps(t, s, steps) <= n
  }

  /** In a room that echoes, a run changes the persistent state as often as one likes. */
  lemma EchoHasNoEnd(t: Thread, s0: Room, a: Action, w: Setting, n: nat) returns (steps: seq<Step>)
    requires LatestMapped(t) && ActsOn(t, a) && Quiet(t, s0) && Echoes(t, s0, a, w)
    ensures Feasible(t, w, steps) && n <= EffectiveSteps(t, Act(s0, a), steps)
  {
    hide Quiet, Echoes, Run, Feasible, EffectiveSteps, Spins;
    var first := EchoCircles(t, s0, a, w);
    var rest := SpinsOn(t, w, Run(t, Act(s0, a), first), n);
    FeasibleConcat(t, w, Act(s0, a), first, rest);
    EffectiveConcat(t, Act(s0, a), first, rest);
    steps := first + rest;
  }

  /**
   * From a settled room, in any setting, all runs after one user action change the
   * persistent state a bounded number of times if and only if the room does not
   * echo; the bound is then the same for all rooms.
   */
  lemma EchoIsBrokenIff(t: Thread, s0: Room, a: Action, w: Setting)
    requires LatestMapped(t) && Quiet(t, s0)
    ensures (exists n: nat :: BoundedBy(t, Act(s0, a), w, n)) <==> !Echoes(t, s0, a, w)
    ensures !Echoes(t, s0, a, w) ==> BoundedBy(t, Act(s0, a), w, 70)
  {
    var t' := Widened(t, a);
    assert LatestMapped(t') && Quiet(t', s0) && ActsOn(t', a) && (Echoes(t, s0, a, w) ==> Echoes(t', s0, a, w));
    hide Quiet, Echoes, PossibleRun, EffectiveSteps;
    if Echoes(t, s0, a, w) {
      forall n: nat ensures !BoundedBy(t, Act(s0, a), w, n) {
        var steps := EchoHasNoEnd(t', s0, a, w, n + 1);
        OnlyTheLatestMatters(t, t', Act(s0, a), steps);
      }
    } else {
      forall steps | PossibleRun(w, steps) ensures EffectiveSteps(t, Act(s0, a), steps) <= 70 {
        QuietRoomIsBounded(t, s0, a, w, steps);
      }
      assert BoundedBy(t, Act(s0, a), w, 70);
    }
  }
}
