/**
 * Which rooms echo: the exact condition on a room before an action under which
 * the bridge answers itself without end, and the bound on what it changes in every
 * other room. The runs without end are in `ReadStateEndless`.
 */
module ReadStateEcho {
  import opened Wrappers
  import opened ReadState
  import opened ReadStateSolo

  /** The user reads a mail that was unread. */
  predicate ReadsNew(s0: Room, a: Action) {
    (a.MailRead? || a.RoomRead?) && a.email !in s0.seen
  }

  /** A receipt that the action made stale meets an unmarked room whose latest mail was read. */
  predicate ReceiptEchoes(t: Thread, s0: Room, a: Action)
    requires LatestMapped(t)
  {
    !s0.marked && t.latest.value in s0.seen && !NoneStale(t, s0, a)
  }

  /** Poller and walk can hold opposite views of one mail, and the latest mail is or will be read. */
  ghost predicate SecondReaderEchoes(t: Thread, s0: Room, a: Action)
    requires LatestMapped(t)
  {
    && t.latest.value in s0.seen + TargetSeen(t, s0, a)
    && !(NoneStale(t, s0, a) && FetchedUnaffected(t, s0, a) && ActsAtOnce(t, s0, a))
  }

  /** A mail became unread, and another one can be taken for newly read. */
  predicate GateReadEchoes(t: Thread, s0: Room, a: Action)
    requires LatestMapped(t)
  {
    match a
    case MailUnread(e) =>
      && e in s0.seen
      && (s0.seen - {e} != {} || (e == t.latest.value && e in s0.poll.fetched))
    case RoomMarkUnread => !s0.marked && t.latest.value in s0.seen
    case _ => false
  }

  /** The mark of a marked room can be applied again while something else reads a mail. */
  predicate FlagReadEchoes(t: Thread, s0: Room, a: Action, w: Setting)
    requires LatestMapped(t)
  {
    && s0.marked
    && (a.RoomRead? ==> s0.flagRead.Some?)
    && (|| t.latest.value in Act(s0, a).receipts
        || (&& t.latest.value in TargetSeen(t, s0, a)
            && (ReadsNew(s0, a) || !NoneStale(t, s0, a) || w.gateReadsFail || w.walking)))
  }

  /** Some run changes the room without end. */
  ghost predicate Echoes(t: Thread, s0: Room, a: Action, w: Setting)
    requires LatestMapped(t)
  {
    || ReceiptEchoes(t, s0, a)
    || (w.walking && SecondReaderEchoes(t, s0, a))
    || (w.gateReadsFail && GateReadEchoes(t, s0, a))
    || (w.flagReadsFail && FlagReadEchoes(t, s0, a, w))
  }

  // ----- Rooms in which two mails or a flag move, each once --------------------------------------

  lemma PlanBounds(t: Thread, g: Plan, s: Room, steps: seq<Step>, n: nat)
    requires t.latest == Some(g.latest) && Straight(g) && Corridor(g, s) && PossibleRun(g.setting, steps)
    requires Distance(g, s) <= n
    ensures EffectiveSteps(t, s, steps) <= n
  {
    RunIsBounded(t, g, s, steps);
  }

  /** Nothing moves but the mark, which a misread gate clears. */
  lemma UnmovedIsBounded(t: Thread, s0: Room, a: Action, w: Setting, steps: seq<Step>)
    requires LatestMapped(t) && Quiet(t, s0) && PossibleRun(w, steps)
    requires s0.marked && Act(s0, a) == s0 && (w.flagReadsFail ==> t.latest.value !in s0.seen)
    ensures EffectiveSteps(t, Act(s0, a), steps) <= 2
  {
    var g := Plan(s0.seen, s0.seen, true, false, t.latest.value, w);
    assert Straight(g);
    assert Corridor(g, s0);
    assert Distance(g, s0) == 2;
    PlanBounds(t, g, s0, steps, 2);
  }

  /** The mark of a marked room is applied once more, to a mail that no receipt brings back. */
  lemma ReapplyIsBounded(t: Thread, s0: Room, a: Action, w: Setting, steps: seq<Step>)
    requires LatestMapped(t) && Quiet(t, s0) && PossibleRun(w, steps)
    requires s0.marked && NoneStale(t, s0, a) && !a.RoomRead? && !ReadsNew(s0, a) && t.latest.value !in s0.receipts
    requires !w.walking && !w.gateReadsFail
    ensures EffectiveSteps(t, Act(s0, a), steps) <= 5
  {
    var to, l := TargetSeen(t, s0, a) - {t.latest.value}, t.latest.value;
    var g, s := Plan(s0.seen, to, true, true, l, w), Act(s0, a);
    assert Straight(g);
    assert Corridor(g, s) by {
      assert s.marked && s.gated && s.seen <= s0.seen;
      forall e | e in s0.poll.fetched ensures EntryInv(g, s, e, s0.poll.fetched[e]) {}
    }
    assert s.seen - to <= {l} && to - s.seen == {} &&
      s0.seen - to <= (if a.RoomMarkUnread? then {l} else {a.email, l}) && to - s0.seen == {};
    SubsetSize(s.seen - to, {l});
    SubsetSize(s0.seen - to, if a.RoomMarkUnread? then {l} else {a.email, l});
    PlanBounds(t, g, s, steps, 5);
  }


  // ----- Rooms in which one mail moves back at most once --------------------------------------------

  lemma QuietReaderIsAlone(c: Solo, s0: Room, seen: bool, r: Reader)
    requires IsCurrent(s0, r) && r.at.Idle?
    requires c.was == (c.mail in s0.seen) && c.rest == s0.seen - {c.mail}
    ensures ReaderAlone(c, seen, r)
  {
  }

  /** The mail the action is about, or the latest one. */
  function Moving(s0: Room, mail: Email, back: bool, w: Setting): Solo {
    Solo(mail, mail in s0.seen, s0.seen - {mail}, back, w)
  }

  lemma ActIsAlone(t: Thread, s0: Room, a: Action, c: Solo)
    requires Quiet(t, s0) && c == Moving(s0, c.mail, c.back, c.setting)
    requires !a.RoomMarkUnread? && a.email != c.mail ==> a.email in s0.seen && !a.MailUnread?
    requires c.setting.gateReadsFail && c.was && a.MailUnread? ==> c.rest == {}
    ensures Alone(c, Act(s0, a))
  {
    var s := Act(s0, a);
    assert MailsAlone(c, s);
    QuietReaderIsAlone(c, s0, Seen(c, s), s0.poll);
    QuietReaderIsAlone(c, s0, Seen(c, s), s0.walk);
    hide MailsAlone, ReaderAlone;
  }

  /** The latest mail is out of it. */
  lemma UnreadLatestIsBounded(t: Thread, s0: Room, a: Action, w: Setting, steps: seq<Step>)
    requires LatestMapped(t) && Quiet(t, s0) && PossibleRun(w, steps)
    requires t.latest.value !in s0.seen + TargetSeen(t, s0, a)
    requires w.gateReadsFail ==> !GateReadEchoes(t, s0, a)
    ensures EffectiveSteps(t, Act(s0, a), steps) <= 70
  {
    var l := t.latest.value;
    var c := Moving(s0, if a.RoomMarkUnread? then l else a.email, false, w);
    ActIsAlone(t, s0, a, c);
    assert LatestUnread(c, l, Act(s0, a));
    hide Alone;
    SoloIsBounded(t, c, Act(s0, a), steps);
  }

  /** A stale receipt meets a marked room, and one reader mirrors it once. */
  lemma FinalMarkIsBounded(t: Thread, s0: Room, a: Action, w: Setting, steps: seq<Step>)
    requires LatestMapped(t) && Quiet(t, s0) && PossibleRun(w, steps)
    requires s0.marked && a.MailUnread? && a.email in s0.seen && !w.walking && !w.flagReadsFail
    requires w.gateReadsFail ==> s0.seen == {a.email} && a.email !in s0.poll.fetched
    ensures EffectiveSteps(t, Act(s0, a), steps) <= 70
  {
    var c := Moving(s0, a.email, false, w);
    ActIsAlone(t, s0, a, c);
    assert MarkIsFinal(c, Act(s0, a));
    hide Alone;
    SoloIsBounded(t, c, Act(s0, a), steps);
  }

  /** The user reads a read mail of a marked room, and the mark is applied once more to the latest mail. */
  lemma LostLatestIsBounded(t: Thread, s0: Room, a: Action, w: Setting, steps: seq<Step>)
    requires LatestMapped(t) && Quiet(t, s0) && PossibleRun(w, steps)
    requires a.RoomRead? && a.email in s0.seen && t.latest.value in s0.seen && t.latest.value !in Act(s0, a).receipts
    requires !w.walking && !w.gateReadsFail
    ensures EffectiveSteps(t, Act(s0, a), steps) <= 70
  {
    var c := Moving(s0, t.latest.value, true, w);
    ActIsAlone(t, s0, a, c);
    assert LatestIsLost(c, t.latest.value, Act(s0, a));
    hide Alone;
    SoloIsBounded(t, c, Act(s0, a), steps);
  }

  // ----- Every room that does not echo -----------------------------------------------------------------

  /** A misread gate that turns the room back has nothing to turn. */
  lemma MisreadGateFindsNothing(t: Thread, s0: Room, a: Action)
    requires LatestMapped(t) && Quiet(t, s0)
    requires GateReadsMatter(s0, a) && !GateReadEchoes(t, s0, a)
    ensures
      t.latest.value in s0.seen + TargetSeen(t, s0, a)
      ==> s0.marked && Act(s0, a) == s0 && TargetSeen(t, s0, a) == s0.seen
  {
    if a.MailUnread? && a.email in s0.seen {
      var e :| e in s0.poll.fetched && s0.poll.fetched[e];
      assert e in s0.seen && e !in s0.seen - {a.email};
      assert t.latest.value !in s0.seen - {a.email};
    } else if a.MailUnread? {
      assert s0.seen - {a.email} == s0.seen;
    } else if a.MailRead? {
      assert s0.seen + {a.email} == s0.seen;
    }
  }

  lemma OneStaleReceipt(t: Thread, s0: Room, a: Action)
    requires LatestMapped(t) && Quiet(t, s0) && !NoneStale(t, s0, a) && !ReceiptEchoes(t, s0, a)
    requires t.latest.value in s0.seen + TargetSeen(t, s0, a)
    ensures s0.marked && a.MailUnread? && a.email in s0.receipts && a.email in s0.seen
  {
    var e :| e in s0.receipts && e !in TargetSeen(t, s0, a);
    assert e in s0.seen;
  }

  lemma StraightRoomIsBounded(t: Thread, s0: Room, a: Action, w: Setting, steps: seq<Step>)
    requires LatestMapped(t) && Quiet(t, s0) && !Echoes(t, s0, a, w) && PossibleRun(w, steps)
    requires t.latest.value in s0.seen + TargetSeen(t, s0, a) && NoneStale(t, s0, a)
    ensures EffectiveSteps(t, Act(s0, a), steps) <= 70
  {
    hide Quiet, EffectiveSteps, PossibleRun;
    if Steady(t, s0, a, w) {
      EchoCycleIsBroken(t, s0, a, w, steps);
    } else if w.gateReadsFail && GateReadsMatter(s0, a) {
      MisreadGateFindsNothing(t, s0, a);
      UnmovedIsBounded(t, s0, a, w, steps);
    } else if a.RoomRead? {
      LostLatestIsBounded(t, s0, a, w, steps);
    } else {
      ReapplyIsBounded(t, s0, a, w, steps);
    }
  }

  /**
   * In every room that does not echo, no run of bridge steps, in whatever order,
   * with repeated receipts, failing calls and crashes, changes the persistent state
   * more than seventy times.
   */
  lemma QuietRoomIsBounded(t: Thread, s0: Room, a: Action, w: Setting, steps: seq<Step>)
    requires LatestMapped(t) && Quiet(t, s0) && !Echoes(t, s0, a, w) && PossibleRun(w, steps)
    ensures EffectiveSteps(t, Act(s0, a), steps) <= 70
  {
    hide Quiet, EffectiveSteps, PossibleRun;
    if t.latest.value !in s0.seen + TargetSeen(t, s0, a) {
      UnreadLatestIsBounded(t, s0, a, w, steps);
    } else if NoneStale(t, s0, a) {
      StraightRoomIsBounded(t, s0, a, w, steps);
    } else {
      OneStaleReceipt(t, s0, a);
      FinalMarkIsBounded(t, s0, a, w, steps);
    }
  }
}
