/**
 * Two-way read state of one bridged thread room.
 *
 * Four tasks run side by side. The poller and the backfill walk mirror `$seen` to
 * Matrix (src/sync/email.rs, src/sync/backfill.rs), each from data it fetched some
 * time before; the transaction handler turns `m.read` receipts into `$seen`
 * (src/services/transactions.rs), and the `/sync` loop turns the room's
 * `m.marked_unread` flag into a cleared `$seen` (src/puppet.rs). Two persisted
 * gates tie them together. Every call below that changes something is its own step
 * and may fail, so the tasks interleave between any two of them, and a crash may
 * drop all volatile state anywhere; the read of a gate, the lookups and the first
 * remote call after them are one step. Poller and walk may fetch any mail here;
 * `ReadStateFeed` gives them only what is reported or ahead.
 */
module ReadState {
  import opened Wrappers

  type Email = string

  /** What the room does not change during one user action. */
  datatype Thread = Thread(emails: set<Email>, latest: Option<Email>)

  /** The two tasks that run `sync_read_state`. */
  datatype Task = Poll | Walk

  /** Where such a task stands inside `sync_read_state`. */
  datatype Place = Idle | ClearFlagNext(email: Email) | SaveGateNext(email: Email) | DropGateNext(email: Email)

  /** Such a task: `$seen` as it fetched it and has not mirrored yet, and where it stands. */
  datatype Reader = Reader(fetched: map<Email, bool>, at: Place)

  /** Where the `/sync` loop stands inside `sync_marked_unread`. */
  datatype Syncer = SyncIdle | SaveFlagGateNext

  datatype Room = Room(
    seen: set<Email>,          // mails carrying `$seen` on the JMAP server
    synced: set<Email>,        // mails whose `read_synced` gate is stored
    marked: bool,              // the room's `m.marked_unread` flag
    gated: bool,               // the stored `marked_unread` gate of the room
    receipts: set<Email>,      // receipts under way to the bridge, by mapped mail
    poll: Reader,
    walk: Reader,
    flagRead: Option<bool>,    // the flag as the last `/sync` response carried it
    syncer: Syncer)

  function ReaderOf(s: Room, task: Task): Reader {
    if task.Poll? then s.poll else s.walk
  }

  function WithReader(s: Room, task: Task, reader: Reader): Room {
    if task.Poll? then s.(poll := reader) else s.(walk := reader)
  }

  datatype UnreadAction = MarkUnseen | ClearGate | NoOp

  function UnreadActionFor(gated: bool, unread: bool): UnreadAction {
    match (gated, unread)
    case (false, true) => MarkUnseen
    case (true, false) => ClearGate
    case _ => NoOp
  }

  /** One atomic step of the bridge. A step that is not enabled changes nothing. */
  datatype Step =
    | Fetch(task: Task, emails: set<Email>)
    | Mirror(task: Task, email: Email)
    | MisreadGate(task: Task, email: Email)      // the gate's read fails and counts as unset
    | MirrorFails(task: Task, email: Email)      // no token, thread or event, or the first call fails
    | ClearFlag(task: Task)
    | ClearFlagFails(task: Task)
    | SaveGate(task: Task)
    | DropGate(task: Task)
    | GiveUp(task: Task)                         // the gate is not written, or a call that worked reports an error
    | DeliverReceipt(email: Email, last: bool)
    | ReceiptFails(email: Email, last: bool)
    | ReadFlag
    | ApplyFlag
    | MisreadFlagGate                            // the gate's read fails and counts as unset
    | ApplyFlagFails
    | SaveFlagGate
    | SaveFlagGateFails
    | Crash

  /** The task takes up mail `e`, whose gate it read as `synced`. */
  function TakeUp(s: Room, task: Task, e: Email, synced: bool): Room {
    var reader := ReaderOf(s, task);
    if !reader.at.Idle? || e !in reader.fetched then s else
    var left := reader.fetched - {e};
    if reader.fetched[e] == synced then WithReader(s, task, Reader(left, Idle))
    else if reader.fetched[e] then WithReader(s, task, Reader(left, ClearFlagNext(e))).(receipts := s.receipts + {e})
    else WithReader(s, task, Reader(left, DropGateNext(e))).(marked := true)
  }

  /** The task goes on to another place. */
  function MoveTo(s: Room, task: Task, place: Place): Room {
    WithReader(s, task, Reader(ReaderOf(s, task).fetched, place))
  }

  /** The `/sync` loop handles the flag it read, having read the gate as `gated`. */
  function HandleFlag(t: Thread, s: Room, gated: bool): Room {
    if !s.syncer.SyncIdle? || s.flagRead.None? then s else
    var read := s.(flagRead := None);
    match UnreadActionFor(gated, s.flagRead.value)
    case NoOp => read
    case ClearGate => read.(gated := false)
    case MarkUnseen =>
      if t.latest.None? then read else read.(seen := s.seen - {t.latest.value}, syncer := SaveFlagGateNext)
  }

  function Next(t: Thread, s: Room, step: Step): Room {
    match step
    case Fetch(k, emails) =>
      if ReaderOf(s, k).at.Idle? then WithReader(s, k, Reader(map e | e in emails :: e in s.seen, Idle)) else s
    case Mirror(k, e) => TakeUp(s, k, e, e in s.synced)
    case MisreadGate(k, e) => TakeUp(s, k, e, false)
    case MirrorFails(k, e) =>
      if ReaderOf(s, k).at.Idle? then WithReader(s, k, Reader(ReaderOf(s, k).fetched - {e}, Idle)) else s
    case ClearFlag(k) =>
      var at := ReaderOf(s, k).at;
      if at.ClearFlagNext? then MoveTo(s, k, SaveGateNext(at.email)).(marked := false) else s
    case ClearFlagFails(k) =>
      var at := ReaderOf(s, k).at;
      if at.ClearFlagNext? then MoveTo(s, k, SaveGateNext(at.email)) else s
    case SaveGate(k) =>
      var at := ReaderOf(s, k).at;
      if at.SaveGateNext? then MoveTo(s, k, Idle).(synced := s.synced + {at.email}) else s
    case DropGate(k) =>
      var at := ReaderOf(s, k).at;
      if at.DropGateNext? then MoveTo(s, k, Idle).(synced := s.synced - {at.email}) else s
    case GiveUp(k) => MoveTo(s, k, Idle)
    case DeliverReceipt(e, last) =>
      if e !in s.receipts then s
      else s.(seen := s.seen + {e}, receipts := if last then s.receipts - {e} else s.receipts)
    case ReceiptFails(e, last) => s.(receipts := if last then s.receipts - {e} else s.receipts)
    case ReadFlag =>
      if s.syncer.SyncIdle? then s.(flagRead := Some(s.marked)) else s
    case ApplyFlag => HandleFlag(t, s, s.gated)
    case MisreadFlagGate => HandleFlag(t, s, false)
    case ApplyFlagFails => if s.syncer.SyncIdle? then s.(flagRead := None) else s
    case SaveFlagGate =>
      if s.syncer.SaveFlagGateNext? then s.(gated := true, syncer := SyncIdle) else s
    case SaveFlagGateFails =>
      if s.syncer.SaveFlagGateNext? then s.(syncer := SyncIdle) else s
    case Crash =>
      s.(poll := Reader(map[], Idle), walk := Reader(map[], Idle), flagRead := None, syncer := SyncIdle)
  }

  function Run(t: Thread, s: Room, steps: seq<Step>): Room
    decreases |steps|
  {
    if steps == [] then s else Run(t, Next(t, s, steps[0]), steps[1..])
  }

  /** Whether the walk is still running, and which of the calls that matter may fail. */
  datatype Setting = Setting(
    walking: bool,
    receiptsFail: bool,
    clearsFail: bool,
    gateReadsFail: bool,
    flagReadsFail: bool)

  predicate ByWalk(step: Step) {
    match step
    case Fetch(k, _) => k.Walk?
    case Mirror(k, _) => k.Walk?
    case MisreadGate(k, _) => k.Walk?
    case MirrorFails(k, _) => k.Walk?
    case ClearFlag(k) => k.Walk?
    case ClearFlagFails(k) => k.Walk?
    case SaveGate(k) => k.Walk?
    case DropGate(k) => k.Walk?
    case GiveUp(k) => k.Walk?
    case _ => false
  }

  /** The steps a setting allows. Failures it does not name are always possible. */
  predicate Possible(w: Setting, step: Step) {
    && (ByWalk(step) ==> w.walking)
    && (step.ReceiptFails? ==> w.receiptsFail)
    && (step.ClearFlagFails? ==> w.clearsFail)
    && (step.MisreadGate? ==> w.gateReadsFail)
    && (step.MisreadFlagGate? ==> w.flagReadsFail)
  }

  ghost predicate PossibleRun(w: Setting, steps: seq<Step>) {
    forall step | step in steps :: Possible(w, step)
  }

  /** What a user can do, in the mail client or in the Matrix client. */
  datatype Action = MailRead(email: Email) | MailUnread(email: Email) | RoomRead(email: Email) | RoomMarkUnread

  function Act(s: Room, a: Action): Room {
    match a
    case MailRead(e) => s.(seen := s.seen + {e})
    case MailUnread(e) => s.(seen := s.seen - {e})
    case RoomRead(e) => s.(marked := false, receipts := s.receipts + {e})
    case RoomMarkUnread => s.(marked := true)
  }

  predicate ActsOn(t: Thread, a: Action) {
    match a
    case RoomMarkUnread => true
    case _ => a.email in t.emails
  }

  /** Both gates agree with what they gate and no receipt would still change a mail. */
  predicate Settled(s: Room) {
    && Rests(s)
    && s.receipts <= s.seen
  }

  /** Between handlers, with gates that agree; receipts may still be under way. */
  predicate Rests(s: Room) {
    && s.seen == s.synced
    && s.marked == s.gated
    && Undisturbed(s)
  }

  /** No handler is half done. */
  predicate Undisturbed(s: Room) {
    s.poll.at.Idle? && s.walk.at.Idle? && s.syncer.SyncIdle?
  }

  ghost predicate IsCurrent(s: Room, reader: Reader) {
    forall e | e in reader.fetched :: reader.fetched[e] == (e in s.seen)
  }

  /** Settled, and what poller, walk and `/sync` loop fetched before is still so. */
  ghost predicate Quiet(t: Thread, s: Room) {
    && Settled(s)
    && IsCurrent(s, s.poll)
    && IsCurrent(s, s.walk)
    && (s.flagRead.Some? ==> s.flagRead.value == s.marked)
    && s.seen <= t.emails
  }

  predicate LatestMapped(t: Thread) {
    t.latest.Some? && t.latest.value in t.emails
  }

  /** The persistent, user-visible part of the state. */
  predicate SameCore(a: Room, b: Room) {
    a.seen == b.seen && a.synced == b.synced && a.marked == b.marked && a.gated == b.gated
  }

  /** How many steps of a run changed the persistent state. */
  function EffectiveSteps(t: Thread, s: Room, steps: seq<Step>): nat
    decreases |steps|
  {
    if steps == [] then 0
    else
      var s' := Next(t, s, steps[0]);
      (if SameCore(s, s') then 0 else 1) + EffectiveSteps(t, s', steps[1..])
  }

  // ----- Where an action leads -------------------------------------------------

  /** The mails that carry `$seen` once the action has settled. */
  function TargetSeen(t: Thread, s0: Room, a: Action): set<Email>
    requires LatestMapped(t)
  {
    match a
    case MailRead(e) => s0.seen + {e}
    case MailUnread(e) =>
      if e !in s0.seen then s0.seen
      else if s0.marked then s0.seen - {e} else s0.seen - {e, t.latest.value}
    case RoomRead(e) => s0.seen + {e}
    case RoomMarkUnread => if s0.marked then s0.seen else s0.seen - {t.latest.value}
  }

  /** The room's unread flag once the action has settled. */
  function TargetMarked(s0: Room, a: Action): bool {
    match a
    case MailRead(e) => e in s0.seen && s0.marked
    case MailUnread(e) => e in s0.seen || s0.marked
    case RoomRead(_) => false
    case RoomMarkUnread => true
  }

  /** No receipt under way is for a mail the action leaves unread. */
  predicate NoneStale(t: Thread, s0: Room, a: Action)
    requires LatestMapped(t)
  {
    s0.receipts <= TargetSeen(t, s0, a)
  }

  /** No mail whose `$seen` the action changes is in a batch fetched before. */
  ghost predicate FetchedUnaffected(t: Thread, s0: Room, a: Action)
    requires LatestMapped(t)
  {
    forall e | e in s0.poll.fetched || e in s0.walk.fetched :: e in s0.seen <==> e in TargetSeen(t, s0, a)
  }

  /** The action itself changes every `$seen` that will change. */
  predicate ActsAtOnce(t: Thread, s0: Room, a: Action)
    requires LatestMapped(t)
  {
    Act(s0, a).seen == TargetSeen(t, s0, a)
  }

  /** The poller has a mail to read as seen, and the room is to be unread. */
  ghost predicate GateReadsMatter(s0: Room, a: Action) {
    TargetMarked(s0, a) && (Act(s0, a).seen != {} || exists e :: e in s0.poll.fetched && s0.poll.fetched[e])
  }

  /** The flag of a marked room is read once more, and its latest mail is to be read. */
  predicate FlagReadsMatter(t: Thread, s0: Room, a: Action)
    requires LatestMapped(t)
  {
    s0.marked && t.latest.value in TargetSeen(t, s0, a) && (a.RoomRead? ==> s0.flagRead.Some?)
  }

  /** Nothing in this setting can turn the room back: every step leads towards the target. */
  ghost predicate Steady(t: Thread, s0: Room, a: Action, w: Setting)
    requires LatestMapped(t)
  {
    && NoneStale(t, s0, a)
    && (w.walking ==> FetchedUnaffected(t, s0, a) && ActsAtOnce(t, s0, a))
    && (w.gateReadsFail ==> !GateReadsMatter(s0, a))
    && (w.flagReadsFail ==> !FlagReadsMatter(t, s0, a))
  }

  /** Steady, and no failure in this setting loses the action half-way. */
  ghost predicate Certain(t: Thread, s0: Room, a: Action, w: Setting)
    requires LatestMapped(t)
  {
    && Steady(t, s0, a, w)
    && (w.receiptsFail ==> !(a.RoomRead? && a.email !in s0.seen))
    && (w.clearsFail ==> !(a.MailRead? && a.email !in s0.seen && s0.marked))
  }

  // ----- The invariant of every run after one action ---------------------------

  /** Where one action starts and leads, and in which setting. */
  datatype Plan = Plan(from: set<Email>, to: set<Email>, was: bool, will: bool, latest: Email, setting: Setting)

  function PlanOf(t: Thread, s0: Room, a: Action, w: Setting): Plan
    requires LatestMapped(t)
  {
    Plan(s0.seen, TargetSeen(t, s0, a), s0.marked, TargetMarked(s0, a), t.latest.value, w)
  }

  /** What the plans of every action have in common. */
  ghost predicate Straight(g: Plan) {
    && (if g.will then g.to <= g.from else g.from <= g.to)
    && (!g.was && g.will ==> g.latest !in g.to)
  }

  lemma PlansAreStraight(t: Thread, s0: Room, a: Action, w: Setting)
    requires LatestMapped(t)
    ensures Straight(PlanOf(t, s0, a, w))
  {
  }

  ghost predicate Moved(x: set<Email>, from: set<Email>, e: Email) {
    (e in x) != (e in from)
  }

  /** `x` lies between the start and the target, mail by mail. */
  ghost predicate Between(g: Plan, x: set<Email>) {
    g.from * g.to <= x <= g.from + g.to
  }

  /** What mail `e` was fetched as is either what its gate still says or what it moved to. */
  ghost predicate EntryInv(g: Plan, s: Room, e: Email, value: bool) {
    && (if value == (e in g.from) then !Moved(s.synced, g.from, e) else Moved(s.seen, g.from, e))
    && (g.setting.walking ==> value == (e in g.to))
    && (g.setting.gateReadsFail && g.will ==> !value)
  }

  ghost predicate PlaceInv(g: Plan, s: Room, r: Reader) {
    match r.at
    case Idle => true
    case ClearFlagNext(e) => e in g.to && e in s.seen && !g.will &&
      (e in g.from || g.setting.walking || e !in r.fetched)
    case SaveGateNext(e) => e in g.to && e in s.seen && !g.will && (e in g.from || g.setting.walking || e !in r.fetched)
    case DropGateNext(e) => e in g.from && e !in g.to && e !in s.seen && (g.setting.walking || e !in r.fetched)
  }

  ghost predicate ReaderInv(g: Plan, s: Room, r: Reader) {
    && (forall e | e in r.fetched :: EntryInv(g, s, e, r.fetched[e]))
    && PlaceInv(g, s, r)
  }

  ghost predicate FlagInv(g: Plan, s: Room) {
    && s.marked in {g.was, g.will}
    && s.gated in {g.was, g.will}
    && (s.gated != g.was ==> s.marked != g.was)
    && (s.flagRead.Some? ==> if s.flagRead.value == g.was then s.gated == g.was else s.marked != g.was)
    && (s.syncer.SaveFlagGateNext? ==>
          s.flagRead.None? && g.latest !in s.seen && g.latest !in g.to && (s.gated || (!g.was && s.marked)))
    && (s.gated && !g.was ==> g.latest !in s.seen)
    && (g.setting.flagReadsFail && g.was && g.latest in g.to ==> !g.will && !s.marked && s.flagRead != Some(true))
  }

  ghost predicate MailsInv(g: Plan, s: Room) {
    && Between(g, s.seen)
    && Between(g, s.synced)
    && (forall e | Moved(s.synced, g.from, e) :: Moved(s.seen, g.from, e))
    && s.receipts <= g.to
    && (g.setting.walking ==> s.seen == g.to)
    && (g.setting.gateReadsFail && g.will ==> s.seen == {})
  }

  /** Everything lies between start and target, whatever has failed. */
  ghost predicate Corridor(g: Plan, s: Room) {
    && MailsInv(g, s)
    && FlagInv(g, s)
    && ReaderInv(g, s, s.poll)
    && (if g.setting.walking then ReaderInv(g, s, s.walk) else s.walk.at.Idle?)
  }

  lemma ActEntersCorridor(t: Thread, s0: Room, a: Action, w: Setting)
    requires LatestMapped(t) && Quiet(t, s0) && Steady(t, s0, a, w)
    ensures Corridor(PlanOf(t, s0, a, w), Act(s0, a))
  {
    var g, s := PlanOf(t, s0, a, w), Act(s0, a);
    forall e | e in s0.poll.fetched ensures EntryInv(g, s, e, s0.poll.fetched[e]) {}
    if w.walking {
      forall e | e in s0.walk.fetched ensures EntryInv(g, s, e, s0.walk.fetched[e]) {}
    }
  }

  lemma FetchStays(t: Thread, g: Plan, s: Room, k: Task, emails: set<Email>)
    requires Corridor(g, s) && (k.Walk? ==> g.setting.walking)
    ensures Corridor(g, Next(t, s, Fetch(k, emails)))
  {
    forall e ensures EntryInv(g, s, e, e in s.seen) {}
  }

  lemma TakeUpStays(g: Plan, s: Room, k: Task, e: Email, synced: bool)
    requires Straight(g) && Corridor(g, s) && (k.Walk? ==> g.setting.walking)
    requires synced == (e in s.synced) || (!synced && g.setting.gateReadsFail)
    ensures Corridor(g, TakeUp(s, k, e, synced))
  {
    var reader := ReaderOf(s, k);
    if e in reader.fetched && reader.at.Idle? {
      assert EntryInv(g, s, e, reader.fetched[e]);
      if reader.fetched[e] && !synced {
        TakeUpReadStays(g, s, k, e);
      } else if !reader.fetched[e] && synced {
        TakeUpUnreadStays(g, s, k, e);
      }
    }
  }

  lemma TakeUpReadStays(g: Plan, s: Room, k: Task, e: Email)
    requires Straight(g) && Corridor(g, s) && (k.Walk? ==> g.setting.walking)
    requires e in ReaderOf(s, k).fetched && ReaderOf(s, k).fetched[e] && (e in s.synced ==> g.setting.gateReadsFail)
    ensures
      var r := Reader(ReaderOf(s, k).fetched - {e}, ClearFlagNext(e));
      Corridor(g, WithReader(s, k, r).(receipts := s.receipts + {e}))
  {
    assert EntryInv(g, s, e, true);
  }

  lemma TakeUpUnreadStays(g: Plan, s: Room, k: Task, e: Email)
    requires Straight(g) && Corridor(g, s) && (k.Walk? ==> g.setting.walking)
    requires e in ReaderOf(s, k).fetched && !ReaderOf(s, k).fetched[e] && e in s.synced
    ensures Corridor(g, WithReader(s, k, Reader(ReaderOf(s, k).fetched - {e}, DropGateNext(e))).(marked := true))
  {
    assert EntryInv(g, s, e, false);
  }

  lemma GateStepStays(t: Thread, g: Plan, s: Room, k: Task, step: Step)
    requires Straight(g) && Corridor(g, s) && (k.Walk? ==> g.setting.walking)
    requires step in {SaveGate(k), DropGate(k)}
    ensures Corridor(g, Next(t, s, step))
  {
  }

  lemma ClearStepStays(t: Thread, g: Plan, s: Room, k: Task, step: Step)
    requires Straight(g) && Corridor(g, s) && (k.Walk? ==> g.setting.walking)
    requires step in {ClearFlag(k), ClearFlagFails(k)}
    ensures Corridor(g, Next(t, s, step))
  {
  }

  lemma LeaveStepStays(t: Thread, g: Plan, s: Room, k: Task, step: Step)
    requires Corridor(g, s) && (k.Walk? ==> g.setting.walking)
    requires step == GiveUp(k) || (step.MirrorFails? && step.task == k)
    ensures Corridor(g, Next(t, s, step))
  {
    hide Straight;
  }

  lemma PlaceStepStays(t: Thread, g: Plan, s: Room, k: Task, step: Step)
    requires Straight(g) && Corridor(g, s) && (k.Walk? ==> g.setting.walking)
    requires step in {ClearFlag(k), ClearFlagFails(k), GiveUp(k)} || (step.MirrorFails? && step.task == k)
    ensures Corridor(g, Next(t, s, step))
  {
    hide Corridor, Straight, Next;
    if step in {ClearFlag(k), ClearFlagFails(k)} {
      ClearStepStays(t, g, s, k, step);
    } else {
      LeaveStepStays(t, g, s, k, step);
    }
  }

  lemma ReceiptStepStays(t: Thread, g: Plan, s: Room, step: Step)
    requires Straight(g) && Corridor(g, s)
    requires step.DeliverReceipt? || step.ReceiptFails?
    ensures Corridor(g, Next(t, s, step))
  {
  }

  lemma FlagReadStays(t: Thread, g: Plan, s: Room, step: Step)
    requires Straight(g) && Corridor(g, s)
    requires step.ReadFlag? || step.ApplyFlagFails?
    ensures Corridor(g, Next(t, s, step))
  {
  }

  /** The flag is only ever handled towards the target, even when its gate is misread. */
  lemma HandleFlagStays(t: Thread, g: Plan, s: Room, gated: bool)
    requires t.latest == Some(g.latest) && Straight(g) && Corridor(g, s)
    requires gated == s.gated || (!gated && g.setting.flagReadsFail)
    ensures Corridor(g, HandleFlag(t, s, gated))
  {
    if s.syncer.SyncIdle? && s.flagRead.Some? {
      if UnreadActionFor(gated, s.flagRead.value).MarkUnseen? {
        MarkUnseenStays(g, s);
      }
    }
  }

  lemma MarkUnseenStays(g: Plan, s: Room)
    requires Straight(g) && Corridor(g, s)
    requires s.syncer.SyncIdle? && s.flagRead == Some(true) && (s.gated ==> g.setting.flagReadsFail)
    ensures Corridor(g, s.(flagRead := None, seen := s.seen - {g.latest}, syncer := SaveFlagGateNext))
  {
    assert g.latest !in g.to;
    hide Straight;
  }

  lemma SaveFlagGateStays(t: Thread, g: Plan, s: Room, step: Step)
    requires Straight(g) && Corridor(g, s)
    requires step.SaveFlagGate? || step.SaveFlagGateFails? || step.Crash?
    ensures Corridor(g, Next(t, s, step))
  {
  }

  lemma StepStaysInCorridor(t: Thread, g: Plan, s: Room, step: Step)
    requires t.latest == Some(g.latest) && Straight(g) && Corridor(g, s) && Possible(g.setting, step)
    ensures Corridor(g, Next(t, s, step))
  {
    hide Corridor, Straight, Next;
    match step
    case Fetch(k, emails) => FetchStays(t, g, s, k, emails);
    case Mirror(k, e) => TakeUpStays(g, s, k, e, e in s.synced); NextIsTakeUp(t, s, step);
    case MisreadGate(k, e) => TakeUpStays(g, s, k, e, false); NextIsTakeUp(t, s, step);
    case MirrorFails(k, _) => PlaceStepStays(t, g, s, k, step);
    case ClearFlag(k) => PlaceStepStays(t, g, s, k, step);
    case ClearFlagFails(k) => PlaceStepStays(t, g, s, k, step);
    case GiveUp(k) => PlaceStepStays(t, g, s, k, step);
    case SaveGate(k) => GateStepStays(t, g, s, k, step);
    case DropGate(k) => GateStepStays(t, g, s, k, step);
    case DeliverReceipt(_, _) => ReceiptStepStays(t, g, s, step);
    case ReceiptFails(_, _) => ReceiptStepStays(t, g, s, step);
    case SaveFlagGate => SaveFlagGateStays(t, g, s, step);
    case SaveFlagGateFails => SaveFlagGateStays(t, g, s, step);
    case Crash => SaveFlagGateStays(t, g, s, step);
    case ReadFlag => FlagReadStays(t, g, s, step);
    case ApplyFlagFails => FlagReadStays(t, g, s, step);
    case ApplyFlag => HandleFlagStays(t, g, s, s.gated); NextIsHandleFlag(t, s, step);
    case MisreadFlagGate => HandleFlagStays(t, g, s, false); NextIsHandleFlag(t, s, step);
  }

  lemma NextIsTakeUp(t: Thread, s: Room, step: Step)
    ensures step.Mirror? ==> Next(t, s, step) == TakeUp(s, step.task, step.email, step.email in s.synced)
    ensures step.MisreadGate? ==> Next(t, s, step) == TakeUp(s, step.task, step.email, false)
  {
  }

  lemma NextIsHandleFlag(t: Thread, s: Room, step: Step)
    ensures step.ApplyFlag? ==> Next(t, s, step) == HandleFlag(t, s, s.gated)
    ensures step.MisreadFlagGate? ==> Next(t, s, step) == HandleFlag(t, s, false)
  {
  }

  lemma {:induction false} RunStaysInCorridor(t: Thread, g: Plan, s: Room, steps: seq<Step>)
    requires t.latest == Some(g.latest) && Straight(g) && Corridor(g, s) && PossibleRun(g.setting, steps)
    ensures Corridor(g, Run(t, s, steps))
    decreases |steps|
  {
    hide Corridor, Straight, Next, Possible;
    if steps != [] {
      StepStaysInCorridor(t, g, s, steps[0]);
      RunStaysInCorridor(t, g, Next(t, s, steps[0]), steps[1..]);
    }
  }

  // ----- Every effective step brings the room closer to the target --------------

  ghost function Apart(x: set<Email>, y: set<Email>): nat {
    |x - y| + |y - x|
  }

  ghost function Distance(g: Plan, s: Room): nat {
    Apart(s.seen, g.to) + Apart(s.synced, g.to)
    + (if s.marked == g.will then 0 else 1) + (if s.gated == g.will then 0 else 1)
  }

  lemma AddBringsCloser(x: set<Email>, y: set<Email>, e: Email)
    requires e in y
    ensures Apart(x + {e}, y) == if e in x then Apart(x, y) else Apart(x, y) - 1
  {
    assert x + {e} - y == x - y;
    assert y - (x + {e}) == (y - x) - {e};
    if e in x { assert x + {e} == x; } else { assert e in y - x; }
  }

  lemma RemoveBringsCloser(x: set<Email>, y: set<Email>, e: Email)
    requires e !in y
    ensures Apart(x - {e}, y) == if e in x then Apart(x, y) - 1 else Apart(x, y)
  {
    assert x - {e} - y == (x - y) - {e};
    assert y - (x - {e}) == y - x;
    if e in x { assert e in x - y; } else { assert x - {e} == x; }
  }

  /** `y` is `x` or one mail closer to `to`. */
  ghost predicate Towards(x: set<Email>, y: set<Email>, to: set<Email>) {
    || y == x
    || (exists e :: e in to && y == x + {e})
    || (exists e :: e !in to && y == x - {e})
  }

  lemma TowardsApproaches(x: set<Email>, y: set<Email>, to: set<Email>)
    requires Towards(x, y, to)
    ensures Apart(y, to) <= Apart(x, to) - (if x == y then 0 else 1)
  {
    if y != x {
      if e :| e in to && y == x + {e} { AddBringsCloser(x, to, e); }
      else { var e :| e !in to && y == x - {e}; RemoveBringsCloser(x, to, e); }
    }
  }

  ghost predicate NoFurther(g: Plan, s: Room, s': Room) {
    && Towards(s.seen, s'.seen, g.to)
    && Towards(s.synced, s'.synced, g.to)
    && (s'.marked == s.marked || s'.marked == g.will)
    && (s'.gated == s.gated || s'.gated == g.will)
  }

  lemma TakeUpIsTowards(g: Plan, s: Room, k: Task, e: Email, synced: bool)
    requires Straight(g) && Corridor(g, s) && (k.Walk? ==> g.setting.walking)
    requires synced == (e in s.synced) || (!synced && g.setting.gateReadsFail)
    ensures NoFurther(g, s, TakeUp(s, k, e, synced))
  {
    var reader := ReaderOf(s, k);
    if e in reader.fetched && reader.at.Idle? && !reader.fetched[e] && synced {
      assert EntryInv(g, s, e, false);
    }
  }

  lemma HandleFlagIsTowards(t: Thread, g: Plan, s: Room, gated: bool)
    requires t.latest == Some(g.latest) && Straight(g) && Corridor(g, s)
    requires gated == s.gated || (!gated && g.setting.flagReadsFail)
    ensures NoFurther(g, s, HandleFlag(t, s, gated))
  {
    hide MailsInv, ReaderInv;
  }

  lemma OtherStepIsTowards(t: Thread, g: Plan, s: Room, step: Step)
    requires Straight(g) && Corridor(g, s) && Possible(g.setting, step)
    requires !step.Mirror? && !step.MisreadGate? && !step.ApplyFlag? && !step.MisreadFlagGate?
    ensures NoFurther(g, s, Next(t, s, step))
  {
    hide EntryInv;
    match step
    case ClearFlag(k) => assert PlaceInv(g, s, ReaderOf(s, k));
    case SaveGate(k) => assert PlaceInv(g, s, ReaderOf(s, k));
    case DropGate(k) => assert PlaceInv(g, s, ReaderOf(s, k));
    case _ =>
  }

  lemma StepIsTowards(t: Thread, g: Plan, s: Room, step: Step)
    requires t.latest == Some(g.latest) && Straight(g) && Corridor(g, s) && Possible(g.setting, step)
    ensures NoFurther(g, s, Next(t, s, step))
  {
    hide NoFurther, Corridor, Straight, Next;
    match step
    case Mirror(k, e) => TakeUpIsTowards(g, s, k, e, e in s.synced); NextIsTakeUp(t, s, step);
    case MisreadGate(k, e) => TakeUpIsTowards(g, s, k, e, false); NextIsTakeUp(t, s, step);
    case ApplyFlag => HandleFlagIsTowards(t, g, s, s.gated); NextIsHandleFlag(t, s, step);
    case MisreadFlagGate => HandleFlagIsTowards(t, g, s, false); NextIsHandleFlag(t, s, step);
    case _ => OtherStepIsTowards(t, g, s, step);
  }

  lemma StepApproaches(t: Thread, g: Plan, s: Room, step: Step)
    requires t.latest == Some(g.latest) && Straight(g) && Corridor(g, s) && Possible(g.setting, step)
    ensures
      var s' := Next(t, s, step);
      Distance(g, s') <= Distance(g, s) - (if SameCore(s, s') then 0 else 1)
  {
    var s' := Next(t, s, step);
    hide Next, Corridor, Towards;
    StepIsTowards(t, g, s, step);
    TowardsApproaches(s.seen, s'.seen, g.to);
    TowardsApproaches(s.synced, s'.synced, g.to);
  }

  lemma {:induction false} RunIsBounded(t: Thread, g: Plan, s: Room, steps: seq<Step>)
    requires t.latest == Some(g.latest) && Straight(g) && Corridor(g, s) && PossibleRun(g.setting, steps)
    ensures EffectiveSteps(t, s, steps) + Distance(g, Run(t, s, steps)) <= Distance(g, s)
    decreases |steps|
  {
    hide Corridor, Straight, Next, Possible, Distance;
    if steps != [] {
      StepApproaches(t, g, s, steps[0]);
      StepStaysInCorridor(t, g, s, steps[0]);
      RunIsBounded(t, g, Next(t, s, steps[0]), steps[1..]);
    }
  }

  lemma ActIsNear(t: Thread, s0: Room, a: Action, w: Setting)
    requires LatestMapped(t) && Quiet(t, s0)
    ensures Distance(PlanOf(t, s0, a, w), Act(s0, a)) <= 5
  {
    var to := TargetSeen(t, s0, a);
    var l := t.latest.value;
    hide Quiet;
    assert s0.seen == s0.synced && s0.marked == s0.gated by { assert Quiet(t, s0); }
    match a
    case MailRead(e) =>
      assert to - s0.seen <= {e} && s0.seen - to == {};
      assert Act(s0, a).seen == to;
      SubsetSize(to - s0.seen, {e});
    case MailUnread(e) =>
      assert to - s0.seen == {} && s0.seen - to <= {e, l};
      SubsetSize(s0.seen - to, {e, l});
      assert to - Act(s0, a).seen == {} && Act(s0, a).seen - to <= {l};
      SubsetSize(Act(s0, a).seen - to, {l});
    case RoomRead(e) =>
      assert to - s0.seen <= {e} && s0.seen - to == {};
      SubsetSize(to - s0.seen, {e});
    case RoomMarkUnread =>
      assert to - s0.seen == {} && s0.seen - to <= {l};
      SubsetSize(s0.seen - to, {l});
  }

  lemma {:induction false} SubsetSize(x: set<Email>, y: set<Email>)
    requires x <= y
    ensures |x| <= |y|
  {
    if x != {} {
      var e :| e in x;
      SubsetSize(x - {e}, y - {e});
    }
  }

  // ----- Nothing is lost half-way --------------------------------------------------

  ghost predicate Started(s: Room, a: Action) {
    match a
    case MailRead(e) => e in s.seen
    case MailUnread(e) => e !in s.seen
    case RoomRead(e) => !s.marked && (e in s.seen || e in s.receipts)
    case RoomMarkUnread => s.marked
  }

  /** What the failures of this setting must not hit. */
  ghost predicate Sheltered(g: Plan, a: Action) {
    && (g.setting.receiptsFail && a.RoomRead? ==> a.email in g.from)
    && (g.setting.clearsFail && a.MailRead? ==> a.email in g.from || !g.was)
  }

  /** What the action says of its plan. */
  ghost predicate Aims(g: Plan, a: Action) {
    match a
    case MailRead(e) => g.to == g.from + {e} && g.will == (e in g.from && g.was)
    case MailUnread(e) =>
      && e !in g.to
      && (if e !in g.from then g.to == g.from && g.will == g.was
          else g.will && g.to == if g.was then g.from - {e} else g.from - {e, g.latest})
    case RoomRead(e) => g.to == g.from + {e} && !g.will
    case RoomMarkUnread => g.will && g.to == if g.was then g.from else g.from - {g.latest}
  }

  ghost predicate PlaceDone(g: Plan, s: Room, r: Reader) {
    match r.at
    case SaveGateNext(e) => e !in g.from ==> s.marked == g.will
    case DropGateNext(e) => s.marked == g.will
    case _ => true
  }

  /** The flag was set before any gate was written, and the action is still under way. */
  ghost predicate OnCourse(g: Plan, a: Action, s: Room) {
    && (forall e | Moved(s.synced, g.from, e) :: s.marked == g.will)
    && PlaceDone(g, s, s.poll)
    && PlaceDone(g, s, s.walk)
    && Started(s, a)
  }

  lemma TakeUpStaysOnCourse(g: Plan, a: Action, s: Room, k: Task, e: Email, synced: bool)
    requires Straight(g) && Corridor(g, s) && (k.Walk? ==> g.setting.walking)
    requires synced == (e in s.synced) || (!synced && g.setting.gateReadsFail)
    requires Aims(g, a) && OnCourse(g, a, s)
    ensures OnCourse(g, a, TakeUp(s, k, e, synced))
  {
    var reader := ReaderOf(s, k);
    if e in reader.fetched { assert EntryInv(g, s, e, reader.fetched[e]); }
  }

  lemma ClearStaysOnCourse(t: Thread, g: Plan, a: Action, s: Room, k: Task, step: Step)
    requires Straight(g) && Corridor(g, s) && Possible(g.setting, step) && (k.Walk? ==> g.setting.walking)
    requires Sheltered(g, a) && Aims(g, a) && OnCourse(g, a, s)
    requires step in {ClearFlag(k), ClearFlagFails(k)}
    ensures OnCourse(g, a, Next(t, s, step))
  {
    hide MailsInv, EntryInv;
    assert PlaceInv(g, s, ReaderOf(s, k));
  }

  lemma GateStepStaysOnCourse(t: Thread, g: Plan, a: Action, s: Room, k: Task, step: Step)
    requires OnCourse(g, a, s)
    requires step in {SaveGate(k), DropGate(k)}
    ensures OnCourse(g, a, Next(t, s, step))
  {
    var s' := Next(t, s, step);
    assert PlaceDone(g, s, ReaderOf(s, k));
    forall x | Moved(s'.synced, g.from, x) ensures s'.marked == g.will {
      assert Moved(s.synced, g.from, x) || x == ReaderOf(s, k).at.email;
    }
  }

  lemma ReceiptStaysOnCourse(t: Thread, g: Plan, a: Action, s: Room, step: Step)
    requires MailsInv(g, s) && Possible(g.setting, step)
    requires Sheltered(g, a) && Aims(g, a) && OnCourse(g, a, s)
    requires step.DeliverReceipt? || step.ReceiptFails?
    ensures OnCourse(g, a, Next(t, s, step))
  {
  }

  lemma HandleFlagStaysOnCourse(t: Thread, g: Plan, a: Action, s: Room, gated: bool)
    requires t.latest == Some(g.latest) && Straight(g) && Corridor(g, s)
    requires gated == s.gated || (!gated && g.setting.flagReadsFail)
    requires Aims(g, a) && OnCourse(g, a, s)
    ensures OnCourse(g, a, HandleFlag(t, s, gated))
  {
    hide ReaderInv;
  }

  lemma IdleStepStaysOnCourse(t: Thread, g: Plan, a: Action, s: Room, step: Step)
    requires OnCourse(g, a, s)
    requires
      || step.Fetch? || step.MirrorFails? || step.GiveUp? || step.ReadFlag? || step.ApplyFlagFails?
      || step.SaveFlagGate? || step.SaveFlagGateFails? || step.Crash?
    ensures OnCourse(g, a, Next(t, s, step))
  {
  }

  lemma StepStaysOnCourse(t: Thread, g: Plan, a: Action, s: Room, step: Step)
    requires t.latest == Some(g.latest) && Straight(g) && Corridor(g, s) && Possible(g.setting, step)
    requires Sheltered(g, a) && Aims(g, a) && OnCourse(g, a, s)
    ensures OnCourse(g, a, Next(t, s, step))
  {
    assert MailsInv(g, s);
    hide MailsInv, Corridor, Straight, Next, OnCourse, Sheltered, Aims;
    match step
    case Mirror(k, e) => TakeUpStaysOnCourse(g, a, s, k, e, e in s.synced); NextIsTakeUp(t, s, step);
    case MisreadGate(k, e) => TakeUpStaysOnCourse(g, a, s, k, e, false); NextIsTakeUp(t, s, step);
    case ClearFlag(k) => ClearStaysOnCourse(t, g, a, s, k, step);
    case ClearFlagFails(k) => ClearStaysOnCourse(t, g, a, s, k, step);
    case SaveGate(k) => GateStepStaysOnCourse(t, g, a, s, k, step);
    case DropGate(k) => GateStepStaysOnCourse(t, g, a, s, k, step);
    case DeliverReceipt(_, _) => ReceiptStaysOnCourse(t, g, a, s, step);
    case ReceiptFails(_, _) => ReceiptStaysOnCourse(t, g, a, s, step);
    case ApplyFlag => HandleFlagStaysOnCourse(t, g, a, s, s.gated); NextIsHandleFlag(t, s, step);
    case MisreadFlagGate => HandleFlagStaysOnCourse(t, g, a, s, false); NextIsHandleFlag(t, s, step);
    case _ => IdleStepStaysOnCourse(t, g, a, s, step);
  }

  lemma {:induction false} RunStaysOnCourse(t: Thread, g: Plan, a: Action, s: Room, steps: seq<Step>)
    requires t.latest == Some(g.latest) && Straight(g) && Corridor(g, s) && PossibleRun(g.setting, steps)
    requires Sheltered(g, a) && Aims(g, a) && OnCourse(g, a, s)
    ensures Corridor(g, Run(t, s, steps)) && OnCourse(g, a, Run(t, s, steps))
    decreases |steps|
  {
    hide Corridor, Straight, Next, Possible, OnCourse, Sheltered, Aims;
    if steps != [] {
      StepStaysInCorridor(t, g, s, steps[0]);
      StepStaysOnCourse(t, g, a, s, steps[0]);
      RunStaysOnCourse(t, g, a, Next(t, s, steps[0]), steps[1..]);
    }
  }

  lemma OnCourseSettlesInTarget(g: Plan, a: Action, s: Room)
    requires Straight(g) && Corridor(g, s) && Aims(g, a) && OnCourse(g, a, s) && Settled(s)
    ensures s.seen == g.to && s.marked == g.will
  {
    assert !a.RoomMarkUnread? ==> Moved(s.synced, g.from, a.email) == Moved(s.seen, g.from, a.email);
    assert s.marked == g.will;
    forall e ensures e in s.seen <==> e in g.to {
      assert Moved(s.synced, g.from, e) == Moved(s.seen, g.from, e);
    }
  }

  lemma ActIsOnCourse(t: Thread, s0: Room, a: Action, w: Setting)
    requires LatestMapped(t) && Quiet(t, s0) && Certain(t, s0, a, w)
    ensures var g := PlanOf(t, s0, a, w); Sheltered(g, a) && Aims(g, a) && OnCourse(g, a, Act(s0, a))
  {
  }

  // ----- Main results ----------------------------------------------------------

  /**
   * After one user action, no run of bridge steps, in whatever order, with
   * repeated receipts, failing calls and crashes, changes the persistent state more
   * than five times.
   */
  lemma EchoCycleIsBroken(t: Thread, s0: Room, a: Action, w: Setting, steps: seq<Step>)
    requires LatestMapped(t) && Quiet(t, s0) && Steady(t, s0, a, w) && PossibleRun(w, steps)
    ensures EffectiveSteps(t, Act(s0, a), steps) <= 5
  {
    PlansAreStraight(t, s0, a, w);
    ActEntersCorridor(t, s0, a, w);
    ActIsNear(t, s0, a, w);
    RunIsBounded(t, PlanOf(t, s0, a, w), Act(s0, a), steps);
  }

  /** Every run that settles settles in the same state: deliveries are confluent. */
  lemma SettlesInTarget(t: Thread, s0: Room, a: Action, w: Setting, steps: seq<Step>)
    requires LatestMapped(t) && Quiet(t, s0) && Certain(t, s0, a, w) && PossibleRun(w, steps)
    ensures
      var s := Run(t, Act(s0, a), steps);
      Settled(s) ==>
        && s.seen == s.synced == TargetSeen(t, s0, a)
        && s.marked == s.gated == TargetMarked(s0, a)
  {
    var g, s := PlanOf(t, s0, a, w), Run(t, Act(s0, a), steps);
    PlansAreStraight(t, s0, a, w);
    ActEntersCorridor(t, s0, a, w);
    ActIsOnCourse(t, s0, a, w);
    RunStaysOnCourse(t, g, a, Act(s0, a), steps);
    hide Quiet, Certain;
    if Settled(s) {
      OnCourseSettlesInTarget(g, a, s);
    }
  }

  /** One whole mirroring of mail `e`, uninterrupted. */
  function PollOnce(k: Task, e: Email): seq<Step> {
    [Fetch(k, {e}), Mirror(k, e), ClearFlag(k), SaveGate(k), DropGate(k)]
  }

  /** One whole `/sync` response, uninterrupted. */
  function SyncOnce(): seq<Step> {
    [ReadFlag, ApplyFlag, SaveFlagGate]
  }

  function AfterPoll(s: Room, k: Task, e: Email): Room {
    var r := WithReader(s, k, Reader(map[], Idle));
    if e in s.seen && e !in s.synced then r.(receipts := s.receipts + {e}, marked := false, synced := s.synced + {e})
    else if e !in s.seen && e in s.synced then r.(marked := true, synced := s.synced - {e})
    else r
  }

  function AfterSync(s: Room, latest: Email): Room {
    s.(flagRead := None, gated := s.marked, seen := if s.marked && !s.gated then s.seen - {latest} else s.seen)
  }

  /** The handler runs on from where it stands, uninterrupted. */
  function Finished(s: Room, k: Task): Room {
    match ReaderOf(s, k).at
    case Idle => s
    case ClearFlagNext(e) => MoveTo(s, k, Idle).(marked := false, synced := s.synced + {e})
    case SaveGateNext(e) => MoveTo(s, k, Idle).(synced := s.synced + {e})
    case DropGateNext(e) => MoveTo(s, k, Idle).(synced := s.synced - {e})
  }

  lemma RunToEnd(t: Thread, s: Room, k: Task)
    ensures Next(t, Next(t, Next(t, s, ClearFlag(k)), SaveGate(k)), DropGate(k)) == Finished(s, k)
  {
  }

  lemma RunPollOnce(t: Thread, s: Room, k: Task, e: Email)
    requires ReaderOf(s, k).at.Idle?
    ensures Run(t, s, PollOnce(k, e)) == AfterPoll(s, k, e)
  {
    var s1 := WithReader(s, k, Reader(map[e := e in s.seen], Idle));
    assert Next(t, s, Fetch(k, {e})) == s1;
    assert ReaderOf(s1, k).fetched - {e} == map[];
    var s2 := TakeUp(s1, k, e, e in s.synced);
    assert Next(t, s1, Mirror(k, e)) == s2;
    assert Finished(s2, k) == AfterPoll(s, k, e);
    RunFive(t, s, Fetch(k, {e}), Mirror(k, e), ClearFlag(k), SaveGate(k), DropGate(k));
    hide Next, Run, Finished, AfterPoll, TakeUp;
    RunToEnd(t, s2, k);
  }

  lemma RunSyncOnce(t: Thread, s: Room)
    requires LatestMapped(t) && s.syncer.SyncIdle?
    ensures Run(t, s, SyncOnce()) == AfterSync(s, t.latest.value)
  {
    RunThree(t, s, ReadFlag, ApplyFlag, SaveFlagGate);
  }

  lemma RunFive(t: Thread, s: Room, a: Step, b: Step, c: Step, d: Step, e: Step)
    ensures Run(t, s, [a, b, c, d, e]) == Next(t, Next(t, Next(t, Next(t, Next(t, s, a), b), c), d), e)
  {
    hide Next;
    assert [a, b, c, d, e][1..] == [b, c, d, e];
    assert [b, c, d, e][1..] == [c, d, e];
    RunThree(t, Next(t, Next(t, s, a), b), c, d, e);
  }

  lemma RunThree(t: Thread, s: Room, a: Step, b: Step, c: Step)
    ensures Run(t, s, [a, b, c]) == Next(t, Next(t, Next(t, s, a), b), c)
  {
    hide Next;
    assert [a, b, c][1..] == [b, c];
    assert [b, c][1..] == [c];
    RunOne(t, Next(t, Next(t, s, a), b), c);
  }

  lemma RunOne(t: Thread, s: Room, a: Step)
    ensures Run(t, s, [a]) == Next(t, s, a)
  {
    assert [a][1..] == [];
  }

  lemma {:induction false} RunConcat(t: Thread, s: Room, xs: seq<Step>, ys: seq<Step>)
    ensures Run(t, s, xs + ys) == Run(t, Run(t, s, xs), ys)
    decreases |xs|
  {
    hide Next;
    if xs == [] {
      assert xs + ys == ys;
    } else {
      assert (xs + ys)[0] == xs[0] && (xs + ys)[1..] == xs[1..] + ys;
      RunConcat(t, Next(t, s, xs[0]), xs[1..], ys);
    }
  }

  /** The action changes something: the user cannot read a read mail again. */
  predicate Changes(s: Room, a: Action) {
    match a
    case MailRead(e) => e !in s.seen
    case MailUnread(e) => e in s.seen
    case RoomRead(e) => e !in s.seen || s.marked
    case RoomMarkUnread => !s.marked
  }

  predicate AsksRead(a: Action) {
    a.MailRead? || a.RoomRead?
  }

  /** In a room of one mail, both sides end exactly where the user asked. */
  lemma OneMailRoomObeysUser(t: Thread, s0: Room, a: Action, w: Setting, steps: seq<Step>, e: Email)
    requires t == Thread({e}, Some(e)) && Quiet(t, s0) && Certain(t, s0, a, w) && PossibleRun(w, steps)
    requires ActsOn(t, a) && Changes(s0, a)
    ensures
      var s := Run(t, Act(s0, a), steps);
      Settled(s) ==>
        && s.seen == (if AsksRead(a) then {e} else {})
        && s.marked == !AsksRead(a)
  {
    SettlesInTarget(t, s0, a, w, steps);
    hide Run, Certain;
  }

  /**
   * Without a mapped latest event (an attachment moved it), marking the room
   * unread never reaches the mail, and the room never settles again, with one task
   * or two and whatever calls fail, as long as the `read_synced` gates can be read.
   */
  lemma UnmappedLatestLosesMarkUnread(t: Thread, s0: Room, w: Setting, steps: seq<Step>)
    requires t.latest.None? && Quiet(t, s0) && !s0.marked && !w.gateReadsFail && PossibleRun(w, steps)
    ensures
      var s := Run(t, Act(s0, RoomMarkUnread), steps);
      s.seen == s0.seen && s.marked && !s.gated && !Settled(s)
  {
    UnmappedRun(t, s0.seen, w, Act(s0, RoomMarkUnread), steps);
  }

  /** Everything fetched agrees with the gates, and the flag waits for a gate. */
  ghost predicate Stuck(seen: set<Email>, s: Room) {
    && s.seen == s.synced == seen && s.receipts <= seen && s.marked && !s.gated
    && Undisturbed(s) && IsCurrent(s, s.poll) && IsCurrent(s, s.walk)
  }

  lemma StepStaysStuck(t: Thread, seen: set<Email>, s: Room, step: Step)
    requires t.latest.None? && Stuck(seen, s) && !step.MisreadGate?
    ensures Stuck(seen, Next(t, s, step))
  {
  }

  lemma {:induction false} UnmappedRun(t: Thread, seen: set<Email>, w: Setting, s: Room, steps: seq<Step>)
    requires t.latest.None? && Stuck(seen, s) && !w.gateReadsFail && PossibleRun(w, steps)
    ensures Stuck(seen, Run(t, s, steps))
    decreases |steps|
  {
    hide Next, Stuck;
    if steps != [] {
      assert Possible(w, steps[0]);
      StepStaysStuck(t, seen, s, steps[0]);
      UnmappedRun(t, seen, w, Next(t, s, steps[0]), steps[1..]);
    }
  }
}
