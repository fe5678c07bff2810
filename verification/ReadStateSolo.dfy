/**
 * Rooms in which a single mail moves back at most once: whatever else the tasks
 * of `ReadState` hold or misread, they run out of effective steps. The rank of a
 * room counts what stale views, the gates and the flag can still cost, and every
 * step that changes the persistent state pays for it.
 */
module ReadStateSolo {
  import opened Wrappers
  import opened ReadState

  /** One mail that moves; the other read mails stay as they are. `back` tells which way it may still move. */
  datatype Solo = Solo(mail: Email, was: bool, rest: set<Email>, back: bool, setting: Setting)

  predicate Seen(c: Solo, s: Room) {
    c.mail in s.seen
  }

  /** The reader is clearing the flag on behalf of mail `e`. */
  predicate Clearing(r: Reader, e: Email) {
    r.at == ClearFlagNext(e) || r.at == SaveGateNext(e)
  }

  predicate Holds(r: Reader, e: Email, value: bool) {
    e in r.fetched && r.fetched[e] == value
  }

  ghost predicate PlaceAlone(c: Solo, r: Reader) {
    match r.at
    case Idle => true
    case ClearFlagNext(e) => (e == c.mail && e !in r.fetched) || (e in c.rest && c.setting.gateReadsFail)
    case SaveGateNext(e) => (e == c.mail && e !in r.fetched) || (e in c.rest && c.setting.gateReadsFail)
    case DropGateNext(e) => e == c.mail && e !in r.fetched
  }

  /** The reader holds nothing but the mail that moves, or what is as it was. */
  ghost predicate ReaderAlone(c: Solo, seen: bool, r: Reader) {
    && (forall e | e in r.fetched && e != c.mail :: r.fetched[e] == (e in c.rest))
    && PlaceAlone(c, r)
    && (!c.was && !seen ==> !Holds(r, c.mail, true) && !Clearing(r, c.mail) && r.at != DropGateNext(c.mail))
  }

  ghost predicate MailsAlone(c: Solo, s: Room) {
    && c.mail !in c.rest
    && (forall e | e != c.mail :: (e in s.seen <==> e in c.rest) && (e in s.synced <==> e in c.rest))
    && (forall e | e in s.receipts :: e == c.mail || e in c.rest)
    && (!c.was && !Seen(c, s) ==> c.mail !in s.synced)
    && (c.setting.gateReadsFail && c.was && !Seen(c, s) ==> c.rest == {})
  }

  ghost predicate Alone(c: Solo, s: Room) {
    && MailsAlone(c, s)
    && ReaderAlone(c, Seen(c, s), s.poll)
    && (if c.setting.walking then ReaderAlone(c, Seen(c, s), s.walk) else s.walk.at.Idle?)
  }

  // ----- What a room can still cost ------------------------------------------------------------

  function Count(b: bool): nat { if b then 1 else 0 }

  function PlaceCost(c: Solo, seen: bool, at: Place): nat {
    match at
    case Idle => 0
    case ClearFlagNext(e) => 6 * Count(e == c.mail && !seen)
    case SaveGateNext(e) => 2 * Count(e == c.mail && !seen)
    case DropGateNext(e) => 2 * Count(e == c.mail && seen)
  }

  /** What a reader's stale view of the mail can still cost: the gate and the flag, there and back. */
  function ReaderCost(c: Solo, seen: bool, r: Reader): nat {
    6 * Count(Holds(r, c.mail, !seen)) + PlaceCost(c, seen, r.at)
  }

  function ReadersCost(c: Solo, s: Room): nat {
    ReaderCost(c, Seen(c, s), s.poll) + if c.setting.walking then ReaderCost(c, Seen(c, s), s.walk) else 0
  }

  /** How often the gate of the flag, once it is `gated`, still changes if the flag does not. */
  function HandlingCost(s: Room, gated: bool): nat {
    match s.flagRead
    case None => Count(gated != s.marked)
    case Some(v) => Count(gated != v) + Count(v != s.marked)
  }

  function FlagCost(s: Room): nat {
    if s.syncer.SaveFlagGateNext? then Count(!s.gated) + HandlingCost(s, true) else HandlingCost(s, s.gated)
  }

  /** The flag towards which fresh news of the mails lead. */
  predicate Lean(c: Solo, s: Room) {
    !Seen(c, s) && c.was
  }

  /** What the gate of the mail and the flag still cost with nothing stale about. */
  function GateCost(c: Solo, s: Room): nat {
    Count((c.mail in s.synced) != Seen(c, s)) + 2 * Count(s.marked != Lean(c, s)) + FlagCost(s)
  }

  /** How often the mail may still move. */
  function MovesLeft(c: Solo, s: Room): nat {
    Count(Seen(c, s) == c.back)
  }

  function Rank(c: Solo, s: Room): nat {
    40 * MovesLeft(c, s) + ReadersCost(c, s) + GateCost(c, s)
  }

  lemma RankIsBounded(c: Solo, s: Room)
    ensures ReadersCost(c, s) + GateCost(c, s) <= 30 && Rank(c, s) <= 70
  {
    assert FlagCost(s) <= 3;
    assert ReaderCost(c, Seen(c, s), s.poll) <= 12 && ReaderCost(c, Seen(c, s), s.walk) <= 12;
    hide FlagCost, ReaderCost;
  }

  /** The step changes nothing for free. */
  ghost predicate Pays(c: Solo, s: Room, s': Room) {
    Alone(c, s') && Rank(c, s') + Count(!SameCore(s, s')) <= Rank(c, s)
  }

  // ----- Steps of the readers ------------------------------------------------------------------

  lemma MarkingCosts(c: Solo, s: Room, m: bool)
    ensures
      var s' := s.(marked := m);
      GateCost(c, s') + Count(!SameCore(s, s')) <= GateCost(c, s) + (if m == Lean(c, s) then 0 else 4)
  {
  }

  lemma GatingCosts(c: Solo, s: Room, synced: set<Email>)
    requires (c.mail in synced) == (c.mail in s.synced) ==> synced == s.synced
    ensures
      var s' := s.(synced := synced);
      GateCost(c, s') + Count(!SameCore(s, s'))
      <= GateCost(c, s) + (if (c.mail in synced) == Seen(c, s) || synced == s.synced then 0 else 2)
  {
  }

  lemma OneReaderCosts(c: Solo, s: Room, k: Task, r: Reader, room: Room)
    requires k.Walk? ==> c.setting.walking
    requires room.poll == s.poll && room.walk == s.walk && room.seen == s.seen
    ensures
      ReadersCost(c, WithReader(room, k, r)) + ReaderCost(c, Seen(c, s), ReaderOf(s, k))
      == ReadersCost(c, s) + ReaderCost(c, Seen(c, s), r)
  {
    hide ReaderCost;
  }

  lemma OneReaderStaysAlone(c: Solo, s: Room, k: Task, r: Reader, room: Room)
    requires Alone(c, s) && (k.Walk? ==> c.setting.walking) && ReaderAlone(c, Seen(c, s), r)
    requires room.poll == s.poll && room.walk == s.walk && room.seen == s.seen && MailsAlone(c, room)
    ensures Alone(c, WithReader(room, k, r))
  {
    var s' := WithReader(room, k, r);
    assert MailsAlone(c, s') by { hide ReaderAlone; }
    hide ReaderAlone, MailsAlone;
  }

  lemma OneReaderKeeps(c: Solo, s: Room, k: Task, r: Reader, room: Room)
    requires room.seen == s.seen
    ensures
      var s' := WithReader(room, k, r);
      && GateCost(c, s') == GateCost(c, room) && MovesLeft(c, s') == MovesLeft(c, s)
      && SameCore(s, s') == SameCore(s, room)
  {
  }

  /** Only task `k` moves on; the gates and the flag may change with it. */
  lemma ReaderPays(c: Solo, s: Room, k: Task, r: Reader, room: Room)
    requires Alone(c, s) && (k.Walk? ==> c.setting.walking) && ReaderAlone(c, Seen(c, s), r)
    requires room.poll == s.poll && room.walk == s.walk && room.seen == s.seen && MailsAlone(c, room)
    requires
      ReaderCost(c, Seen(c, s), r) + GateCost(c, room) + Count(!SameCore(s, room))
      <= ReaderCost(c, Seen(c, s), ReaderOf(s, k)) + GateCost(c, s)
    ensures Pays(c, s, WithReader(room, k, r))
  {
    var s' := WithReader(room, k, r);
    hide Alone, ReaderAlone, MailsAlone, ReaderCost, ReadersCost, GateCost, SameCore, MovesLeft, Count, Seen;
    OneReaderStaysAlone(c, s, k, r, room);
    OneReaderCosts(c, s, k, r, room);
    OneReaderKeeps(c, s, k, r, room);
  }

  lemma FetchPays(t: Thread, c: Solo, s: Room, k: Task, emails: set<Email>)
    requires Alone(c, s) && (k.Walk? ==> c.setting.walking)
    ensures Pays(c, s, Next(t, s, Fetch(k, emails)))
  {
    ReaderIsAlone(c, s, k);
    if ReaderOf(s, k).at.Idle? {
      var r := Reader(map e | e in emails :: e in s.seen, Idle);
      assert ReaderAlone(c, Seen(c, s), r) && ReaderCost(c, Seen(c, s), r) == 0;
      assert WithReader(s, k, r) == Next(t, s, Fetch(k, emails));
      hide Rank, Alone, ReaderAlone, ReaderCost, GateCost, Next;
      ReaderPays(c, s, k, r, s);
    } else {
      NothingPays(c, s);
    }
  }

  lemma NothingPays(c: Solo, s: Room)
    requires Alone(c, s)
    ensures Pays(c, s, s)
  {
    hide Alone, Rank;
  }

  lemma ReaderIsAlone(c: Solo, s: Room, k: Task)
    requires Alone(c, s) && (k.Walk? ==> c.setting.walking)
    ensures ReaderAlone(c, Seen(c, s), ReaderOf(s, k)) && MailsAlone(c, s)
  {
    hide ReaderAlone, MailsAlone;
  }

  lemma OnlyReceipts(c: Solo, s: Room, receipts: set<Email>)
    ensures var s' := s.(receipts := receipts); GateCost(c, s') == GateCost(c, s) && SameCore(s, s')
  {
  }

  /** The mail leaves the batch and the task stays where it is. */
  lemma LeavingPays(c: Solo, s: Room, k: Task, e: Email)
    requires Alone(c, s) && (k.Walk? ==> c.setting.walking) && ReaderOf(s, k).at.Idle?
    ensures Pays(c, s, WithReader(s, k, Reader(ReaderOf(s, k).fetched - {e}, Idle)))
  {
    var r := ReaderOf(s, k);
    ReaderIsAlone(c, s, k);
    hide Alone, Rank, MailsAlone, GateCost;
    ReaderPays(c, s, k, Reader(r.fetched - {e}, Idle), s);
  }

  lemma TakeUpReadPays(c: Solo, s: Room, k: Task, e: Email)
    requires Alone(c, s) && (k.Walk? ==> c.setting.walking) && ReaderOf(s, k).at.Idle?
    requires Holds(ReaderOf(s, k), e, true) && (e !in s.synced || c.setting.gateReadsFail)
    ensures
      var r := Reader(ReaderOf(s, k).fetched - {e}, ClearFlagNext(e));
      Pays(c, s, WithReader(s, k, r).(receipts := s.receipts + {e}))
  {
    var r := ReaderOf(s, k);
    var r', room := Reader(r.fetched - {e}, ClearFlagNext(e)), s.(receipts := s.receipts + {e});
    ReaderIsAlone(c, s, k);
    hide Alone, Rank, GateCost;
    assert e != c.mail ==> e in c.rest;
    assert MailsAlone(c, room) by { hide ReaderAlone, ReaderCost; }
    hide MailsAlone;
    assert ReaderAlone(c, Seen(c, s), r') by { hide ReaderCost; }
    assert ReaderCost(c, Seen(c, s), r') <= ReaderCost(c, Seen(c, s), r);
    OnlyReceipts(c, s, room.receipts);
    hide MailsAlone, GateCost, ReaderCost, ReaderAlone;
    ReaderPays(c, s, k, r', room);
    assert WithReader(room, k, r') == WithReader(s, k, r').(receipts := s.receipts + {e});
  }

  lemma TakeUpUnreadPays(c: Solo, s: Room, k: Task, e: Email)
    requires Alone(c, s) && (k.Walk? ==> c.setting.walking) && ReaderOf(s, k).at.Idle?
    requires Holds(ReaderOf(s, k), e, false) && e in s.synced
    ensures Pays(c, s, WithReader(s, k, Reader(ReaderOf(s, k).fetched - {e}, DropGateNext(e))).(marked := true))
  {
    var r := ReaderOf(s, k);
    var r', room := Reader(r.fetched - {e}, DropGateNext(e)), s.(marked := true);
    ReaderIsAlone(c, s, k);
    hide Alone, Rank;
    assert e == c.mail && (Seen(c, s) || c.was);
    assert MailsAlone(c, room);
    assert ReaderAlone(c, Seen(c, s), r');
    assert ReaderCost(c, Seen(c, s), r') + (if Seen(c, s) then 4 else 0) <= ReaderCost(c, Seen(c, s), r);
    hide MailsAlone, GateCost, ReaderCost, ReaderAlone;
    MarkingCosts(c, s, true);
    ReaderPays(c, s, k, r', room);
    assert WithReader(room, k, r') == WithReader(s, k, r').(marked := true);
  }

  lemma TakeUpPays(c: Solo, s: Room, k: Task, e: Email, synced: bool)
    requires Alone(c, s) && (k.Walk? ==> c.setting.walking)
    requires synced == (e in s.synced) || (!synced && c.setting.gateReadsFail)
    ensures Pays(c, s, TakeUp(s, k, e, synced))
  {
    var reader := ReaderOf(s, k);
    hide Alone, Rank, Pays;
    if !reader.at.Idle? || e !in reader.fetched {
      NothingPays(c, s);
    } else if reader.fetched[e] == synced {
      LeavingPays(c, s, k, e);
    } else if reader.fetched[e] {
      TakeUpReadPays(c, s, k, e);
    } else {
      TakeUpUnreadPays(c, s, k, e);
    }
  }

  lemma ClearFlagPays(t: Thread, c: Solo, s: Room, k: Task, cleared: bool)
    requires Alone(c, s) && (k.Walk? ==> c.setting.walking) && ReaderOf(s, k).at.ClearFlagNext?
    ensures
      var at := SaveGateNext(ReaderOf(s, k).at.email);
      Pays(c, s, MoveTo(s, k, at).(marked := !cleared && s.marked))
  {
    var r := ReaderOf(s, k);
    var r', room := Reader(r.fetched, SaveGateNext(r.at.email)), s.(marked := !cleared && s.marked);
    ReaderIsAlone(c, s, k);
    hide Alone, Rank;
    assert MailsAlone(c, room) && ReaderAlone(c, Seen(c, s), r');
    assert r.at.email != c.mail ==> !Lean(c, s);
    assert ReaderCost(c, Seen(c, s), r') + (if Lean(c, s) then 4 else 0) <= ReaderCost(c, Seen(c, s), r);
    assert !cleared ==> room == s;
    hide MailsAlone, GateCost, ReaderCost, ReaderAlone;
    MarkingCosts(c, s, false);
    ReaderPays(c, s, k, r', room);
    assert WithReader(room, k, r') == MoveTo(s, k, r'.at).(marked := !cleared && s.marked);
  }

  lemma GiveUpPays(c: Solo, s: Room, k: Task)
    requires Alone(c, s) && (k.Walk? ==> c.setting.walking)
    ensures Pays(c, s, MoveTo(s, k, Idle))
  {
    ReaderIsAlone(c, s, k);
    hide Alone, Rank, MailsAlone, GateCost;
    ReaderPays(c, s, k, Reader(ReaderOf(s, k).fetched, Idle), s);
  }

  lemma PlaceStepPays(t: Thread, c: Solo, s: Room, k: Task, step: Step)
    requires Alone(c, s) && (k.Walk? ==> c.setting.walking)
    requires step in {ClearFlag(k), ClearFlagFails(k), GiveUp(k)} || (step.MirrorFails? && step.task == k)
    ensures Pays(c, s, Next(t, s, step))
  {
    var at := ReaderOf(s, k).at;
    hide Alone, Rank, Pays;
    match step
    case ClearFlag(_) => if at.ClearFlagNext? { ClearFlagPays(t, c, s, k, true); } else { NothingPays(c, s); }
    case ClearFlagFails(_) =>
      if at.ClearFlagNext? {
        ClearFlagPays(t, c, s, k, false);
        assert MoveTo(s, k, SaveGateNext(at.email)).(marked := s.marked) == MoveTo(s, k, SaveGateNext(at.email));
      } else {
        NothingPays(c, s);
      }
    case GiveUp(_) => GiveUpPays(c, s, k);
    case MirrorFails(_, e) => if at.Idle? { LeavingPays(c, s, k, e); } else { NothingPays(c, s); }
  }

  lemma SaveGatePays(c: Solo, s: Room, k: Task)
    requires Alone(c, s) && (k.Walk? ==> c.setting.walking) && ReaderOf(s, k).at.SaveGateNext?
    ensures Pays(c, s, MoveTo(s, k, Idle).(synced := s.synced + {ReaderOf(s, k).at.email}))
  {
    var r := ReaderOf(s, k);
    var e := r.at.email;
    var r', room := Reader(r.fetched, Idle), s.(synced := s.synced + {e});
    ReaderIsAlone(c, s, k);
    hide Alone, Rank;
    assert e != c.mail ==> e in s.synced;
    assert e in s.synced ==> s.synced + {e} == s.synced;
    assert MailsAlone(c, room) && ReaderAlone(c, Seen(c, s), r');
    assert ReaderCost(c, Seen(c, s), r') + (if e == c.mail && !Seen(c, s) then 2 else 0) <=
      ReaderCost(c, Seen(c, s), r);
    hide MailsAlone, GateCost, ReaderCost, ReaderAlone;
    GatingCosts(c, s, room.synced);
    ReaderPays(c, s, k, r', room);
    assert WithReader(room, k, r') == MoveTo(s, k, Idle).(synced := s.synced + {e});
  }

  lemma DropGatePays(c: Solo, s: Room, k: Task)
    requires Alone(c, s) && (k.Walk? ==> c.setting.walking) && ReaderOf(s, k).at.DropGateNext?
    ensures Pays(c, s, MoveTo(s, k, Idle).(synced := s.synced - {ReaderOf(s, k).at.email}))
  {
    var r := ReaderOf(s, k);
    var e := r.at.email;
    var r', room := Reader(r.fetched, Idle), s.(synced := s.synced - {e});
    ReaderIsAlone(c, s, k);
    hide Alone, Rank;
    assert e == c.mail;
    assert e !in s.synced ==> s.synced - {e} == s.synced;
    assert MailsAlone(c, room) && ReaderAlone(c, Seen(c, s), r');
    assert ReaderCost(c, Seen(c, s), r') + (if Seen(c, s) then 2 else 0) <= ReaderCost(c, Seen(c, s), r);
    hide MailsAlone, GateCost, ReaderCost, ReaderAlone;
    GatingCosts(c, s, room.synced);
    ReaderPays(c, s, k, r', room);
    assert WithReader(room, k, r') == MoveTo(s, k, Idle).(synced := s.synced - {e});
  }

  lemma GateStepPays(t: Thread, c: Solo, s: Room, k: Task, step: Step)
    requires Alone(c, s) && (k.Walk? ==> c.setting.walking) && step in {SaveGate(k), DropGate(k)}
    ensures Pays(c, s, Next(t, s, step))
  {
    hide Alone, Rank, Pays;
    if step.SaveGate? && ReaderOf(s, k).at.SaveGateNext? {
      SaveGatePays(c, s, k);
    } else if step.DropGate? && ReaderOf(s, k).at.DropGateNext? {
      DropGatePays(c, s, k);
    } else {
      NothingPays(c, s);
    }
  }

  // ----- Receipts, the flag and crashes ----------------------------------------------------------

  /** The last move of the mail pays for all that readers and gates can do about it. */
  lemma MovePays(c: Solo, s: Room, s': Room)
    requires Alone(c, s') && Seen(c, s) == c.back && Seen(c, s') != c.back
    ensures Pays(c, s, s')
  {
    RankIsBounded(c, s');
    hide Alone, ReadersCost, GateCost;
  }

  lemma ReaderStaysAlone(c: Solo, seen: bool, r: Reader)
    requires ReaderAlone(c, !seen, r) && (seen || c.was)
    ensures ReaderAlone(c, seen, r)
  {
  }

  lemma MoveStaysAlone(c: Solo, s: Room, s': Room)
    requires Alone(c, s) && s'.poll == s.poll && s'.walk == s.walk && MailsAlone(c, s') && (Seen(c, s') || c.was)
    ensures Alone(c, s')
  {
    hide ReaderAlone, MailsAlone;
    if Seen(c, s') != Seen(c, s) {
      ReaderStaysAlone(c, Seen(c, s'), s.poll);
      if c.setting.walking { ReaderStaysAlone(c, Seen(c, s'), s.walk); }
    }
  }

  /** Receipts arrive or are dropped, and no mail changes. */
  lemma ReceiptsCostNothing(c: Solo, s: Room, receipts: set<Email>)
    requires Alone(c, s) && receipts <= s.receipts
    ensures Pays(c, s, s.(receipts := receipts))
  {
    var s' := s.(receipts := receipts);
    assert MailsAlone(c, s') && SameCore(s, s');
    assert Alone(c, s') by { hide MailsAlone, ReaderAlone; }
    hide Alone;
    assert ReadersCost(c, s') == ReadersCost(c, s) && GateCost(c, s') == GateCost(c, s);
    hide ReadersCost, GateCost, SameCore;
  }

  lemma ReceiptPays(t: Thread, c: Solo, s: Room, step: Step)
    requires Alone(c, s) && (step.DeliverReceipt? || step.ReceiptFails?)
    requires c.back ==> c.mail !in s.receipts
    ensures Pays(c, s, Next(t, s, step))
  {
    var e := step.email;
    var receipts := if step.last then s.receipts - {e} else s.receipts;
    if step.ReceiptFails? || e !in s.receipts || e in s.seen {
      assert e in s.seen ==> s.seen + {e} == s.seen;
      assert Next(t, s, step) == s.(receipts := receipts) || Next(t, s, step) == s;
      ReceiptsCostNothing(c, s, receipts);
      NothingPays(c, s);
    } else {
      var s' := s.(seen := s.seen + {e}, receipts := receipts);
      assert MailsAlone(c, s) && e == c.mail;
      assert MailsAlone(c, s') && Seen(c, s') && !Seen(c, s);
      hide MailsAlone, Pays;
      MoveStaysAlone(c, s, s');
      MovePays(c, s, s');
    }
  }

  /** Only the gate of the flag and where the `/sync` loop stands change. */
  lemma FlagPays(c: Solo, s: Room, gated: bool, flagRead: Option<bool>, syncer: Syncer)
    requires Alone(c, s)
    requires
      FlagCost(s.(gated := gated, flagRead := flagRead, syncer := syncer)) + Count(gated != s.gated) <= FlagCost(s)
    ensures Pays(c, s, s.(gated := gated, flagRead := flagRead, syncer := syncer))
  {
    var s' := s.(gated := gated, flagRead := flagRead, syncer := syncer);
    assert MailsAlone(c, s') && ReadersCost(c, s') == ReadersCost(c, s) && MovesLeft(c, s') == MovesLeft(c, s);
    assert SameCore(s, s') == (gated == s.gated);
    hide MailsAlone, ReaderAlone, ReadersCost, FlagCost, SameCore, MovesLeft;
  }

  lemma FlagStepPays(t: Thread, c: Solo, s: Room, step: Step)
    requires Alone(c, s)
    requires step.ReadFlag? || step.ApplyFlagFails? || step.SaveFlagGate? || step.SaveFlagGateFails?
    ensures Pays(c, s, Next(t, s, step))
  {
    var s' := Next(t, s, step);
    hide Alone, Pays;
    assert s' == s.(gated := s'.gated, flagRead := s'.flagRead, syncer := s'.syncer);
    FlagPays(c, s, s'.gated, s'.flagRead, s'.syncer);
  }

  lemma CrashPays(t: Thread, c: Solo, s: Room)
    requires Alone(c, s)
    ensures Pays(c, s, Next(t, s, Crash))
  {
    var s' := Next(t, s, Crash);
    assert MailsAlone(c, s') && ReadersCost(c, s') == 0 && MovesLeft(c, s') == MovesLeft(c, s);
    assert GateCost(c, s') <= GateCost(c, s) && SameCore(s, s');
    assert Alone(c, s');
    hide Alone, ReadersCost, GateCost, MovesLeft, SameCore;
  }

  /** The mark can only be applied to an unread mail, or to the one that may still become unread. */
  predicate MarkIsTame(c: Solo, latest: Email, s: Room) {
    latest in s.seen ==> latest == c.mail && c.back && c.was && !c.setting.gateReadsFail
  }

  lemma HandleFlagPays(t: Thread, c: Solo, s: Room, gated: bool)
    requires t.latest.Some? && Alone(c, s) && (gated ==> s.gated)
    requires s.flagRead == Some(true) && !gated ==> MarkIsTame(c, t.latest.value, s)
    ensures Pays(c, s, HandleFlag(t, s, gated))
  {
    var s', l := HandleFlag(t, s, gated), t.latest.value;
    if s'.seen == s.seen {
      hide Alone, Pays;
      assert s' == s.(gated := s'.gated, flagRead := s'.flagRead, syncer := s'.syncer);
      FlagPays(c, s, s'.gated, s'.flagRead, s'.syncer);
    } else {
      assert l in s.seen && s'.seen == s.seen - {l};
      assert MailsAlone(c, s') && Seen(c, s) && !Seen(c, s');
      hide MailsAlone, Pays;
      MoveStaysAlone(c, s, s');
      MovePays(c, s, s');
    }
  }

  // ----- Why the mark no longer moves a mail twice -----------------------------------------------

  /** The latest mail is unread and stays so. */
  predicate LatestUnread(c: Solo, latest: Email, s: Room) {
    latest !in s.seen && latest !in s.receipts && !c.back && (latest == c.mail ==> !c.was)
  }

  /** A marked room with both gates set loses its mark only for good: the mail that cleared it is read. */
  predicate MarkIsFinal(c: Solo, s: Room) {
    && !c.setting.walking && !c.setting.flagReadsFail && (c.setting.gateReadsFail ==> c.rest == {})
    && c.was && !c.back && s.syncer.SyncIdle?
    && (!s.marked ==> Seen(c, s) && !Holds(s.poll, c.mail, false) && s.poll.at != DropGateNext(c.mail))
    && (!s.gated ==> !s.marked && s.flagRead != Some(true))
    && (s.flagRead == Some(false) ==> !s.marked)
    && (Clearing(s.poll, c.mail) ==> Seen(c, s))
    && (Holds(s.poll, c.mail, true) && (c.mail !in s.synced || c.setting.gateReadsFail) ==> Seen(c, s))
  }

  /** The latest mail may become unread once more, and nothing reads it again. */
  predicate LatestIsLost(c: Solo, latest: Email, s: Room) {
    && latest == c.mail && !c.setting.walking && !c.setting.gateReadsFail
    && c.was && c.back && c.mail !in s.receipts
    && (Seen(c, s) ==> c.mail in s.synced)
    && (Holds(s.poll, c.mail, true) ==> c.mail in s.synced)
    && (Holds(s.poll, c.mail, false) || s.poll.at == DropGateNext(c.mail) ==> !Seen(c, s))
    && !Clearing(s.poll, c.mail)
  }

  predicate Held(c: Solo, latest: Email, s: Room) {
    LatestUnread(c, latest, s) || MarkIsFinal(c, s) || LatestIsLost(c, latest, s)
  }

  lemma HeldIsTame(c: Solo, latest: Email, s: Room, gated: bool)
    requires Held(c, latest, s) && (gated == s.gated || (!gated && c.setting.flagReadsFail))
    ensures c.back ==> c.mail !in s.receipts
    ensures s.flagRead == Some(true) && !gated ==> MarkIsTame(c, latest, s)
  {
  }

  lemma LatestStaysUnread(t: Thread, c: Solo, latest: Email, s: Room, step: Step)
    requires t.latest == Some(latest) && Alone(c, s) && LatestUnread(c, latest, s) && Possible(c.setting, step)
    ensures LatestUnread(c, latest, Next(t, s, step))
  {
    match step
    case Mirror(k, e) => LatestIsNotTaken(c, latest, s, k, e);
    case MisreadGate(k, e) => LatestIsNotTaken(c, latest, s, k, e);
    case _ => hide MailsAlone, ReaderAlone;
  }

  lemma LatestIsNotTaken(c: Solo, latest: Email, s: Room, k: Task, e: Email)
    requires Alone(c, s) && LatestUnread(c, latest, s) && (k.Walk? ==> c.setting.walking)
    ensures Holds(ReaderOf(s, k), e, true) ==> e != latest
  {
    ReaderIsAlone(c, s, k);
    hide Alone;
  }

  lemma MarkStaysFinal(t: Thread, c: Solo, s: Room, step: Step)
    requires Alone(c, s) && MarkIsFinal(c, s) && Possible(c.setting, step)
    ensures MarkIsFinal(c, Next(t, s, step))
  {
    ReaderIsAlone(c, s, Poll);
    hide Alone;
  }

  lemma LatestStaysLost(t: Thread, c: Solo, latest: Email, s: Room, step: Step)
    requires t.latest == Some(latest) && Alone(c, s) && LatestIsLost(c, latest, s) && Possible(c.setting, step)
    ensures LatestIsLost(c, latest, Next(t, s, step))
  {
    ReaderIsAlone(c, s, Poll);
    hide Alone;
  }

  lemma StepPays(t: Thread, c: Solo, s: Room, step: Step)
    requires t.latest.Some? && Alone(c, s) && Held(c, t.latest.value, s) && Possible(c.setting, step)
    ensures Pays(c, s, Next(t, s, step)) && Held(c, t.latest.value, Next(t, s, step))
  {
    var l := t.latest.value;
    HeldIsTame(c, l, s, s.gated);
    if step.MisreadFlagGate? { HeldIsTame(c, l, s, false); }
    hide Alone, Pays, Next, LatestUnread, MarkIsFinal, LatestIsLost, MarkIsTame;
    if LatestUnread(c, l, s) { LatestStaysUnread(t, c, l, s, step); }
    if MarkIsFinal(c, s) { MarkStaysFinal(t, c, s, step); }
    if LatestIsLost(c, l, s) { LatestStaysLost(t, c, l, s, step); }
    hide Held;
    match step
    case Fetch(k, emails) => FetchPays(t, c, s, k, emails);
    case Mirror(k, e) => TakeUpPays(c, s, k, e, e in s.synced); NextIsTakeUp(t, s, step);
    case MisreadGate(k, e) => TakeUpPays(c, s, k, e, false); NextIsTakeUp(t, s, step);
    case MirrorFails(k, _) => PlaceStepPays(t, c, s, k, step);
    case ClearFlag(k) => PlaceStepPays(t, c, s, k, step);
    case ClearFlagFails(k) => PlaceStepPays(t, c, s, k, step);
    case GiveUp(k) => PlaceStepPays(t, c, s, k, step);
    case SaveGate(k) => GateStepPays(t, c, s, k, step);
    case DropGate(k) => GateStepPays(t, c, s, k, step);
    case DeliverReceipt(_, _) => ReceiptPays(t, c, s, step);
    case ReceiptFails(_, _) => ReceiptPays(t, c, s, step);
    case ApplyFlag => HandleFlagPays(t, c, s, s.gated); NextIsHandleFlag(t, s, step);
    case MisreadFlagGate => HandleFlagPays(t, c, s, false); NextIsHandleFlag(t, s, step);
    case Crash => CrashPays(t, c, s);
    case _ => FlagStepPays(t, c, s, step);
  }

  lemma {:induction false} RunPays(t: Thread, c: Solo, s: Room, steps: seq<Step>)
    requires t.latest.Some? && Alone(c, s) && Held(c, t.latest.value, s) && PossibleRun(c.setting, steps)
    ensures EffectiveSteps(t, s, steps) <= Rank(c, s)
    decreases |steps|
  {
    hide Alone, Held, Next, Possible, Rank;
    if steps != [] {
      StepPays(t, c, s, steps[0]);
      RunPays(t, c, Next(t, s, steps[0]), steps[1..]);
    }
  }

  lemma SoloIsBounded(t: Thread, c: Solo, s: Room, steps: seq<Step>)
    requires t.latest.Some? && Alone(c, s) && Held(c, t.latest.value, s) && PossibleRun(c.setting, steps)
    ensures EffectiveSteps(t, s, steps) <= 70
  {
    RunPays(t, c, s, steps);
    RankIsBounded(c, s);
  }
}
