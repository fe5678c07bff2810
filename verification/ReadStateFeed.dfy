/**
 * When a room can still settle: the steps of `ReadState`, with each task given
 * only what its source of news brings it.
 *
 * The poller asks for the mails changed since its stored `changes` token and
 * stores the next token once their page is through, whether they were mirrored or
 * not (src/sync/email.rs); the walk comes to each mail ahead of its stored position
 * once (src/sync/backfill.rs); a `/sync` response carries the room's flag after a
 * change, and once more after a restart (src/puppet.rs). A handler that gives up
 * therefore loses the edge unless something brings the mail, or the flag, again.
 */
module ReadStateFeed {
  import opened Wrappers
  import opened ReadState

  /** Where the poller stands: the mails of the page it asked for, and what changed since it asked. */
  datatype Page = Resting | Asked(page: set<Email>, since: set<Email>) | Paging(since: set<Email>)

  /** Where the walk stands. */
  datatype Batch = Waiting | Batching(mails: set<Email>)

  datatype Live = Live(
    room: Room,
    reported: set<Email>,      // mails changed since the stored `changes` token
    page: Page,
    ahead: set<Email>,         // mails at or behind the stored position of the walk
    batch: Batch,
    news: bool)                // the next `/sync` response carries the room's flag

  datatype Move =
    | Handler(step: Step)      // a step of `ReadState`, but for fetches
    | Ask
    | AskFails
    | FetchPage
    | SaveToken
    | SaveTokenFails
    | StartBatch(mails: set<Email>)
    | FinishBatch
    | BatchFails               // the position is not written
    | Touch(email: Email)      // something else about the mail changes
    | TouchFlag                // a client sets the room's flag to what it is

  function Changed(x: set<Email>, y: set<Email>): set<Email> {
    (x - y) + (y - x)
  }

  function Noted(page: Page, mails: set<Email>): Page {
    match page
    case Resting => page
    case Asked(p, since) => Asked(p, since + mails)
    case Paging(since) => Paging(since + mails)
  }

  /** The room changes; what changed is reported. */
  function With(s: Live, room: Room): Live {
    var mails := Changed(s.room.seen, room.seen);
    s.(room := room, reported := s.reported + mails, page := Noted(s.page, mails),
       news := s.news || room.marked != s.room.marked)
  }

  predicate Empty(s: Live, k: Task) {
    ReaderOf(s.room, k) == Reader(map[], Idle)
  }

  function Handle(t: Thread, s: Live, step: Step): Live {
    match step
    case Fetch(_, _) => s
    case ReadFlag =>
      if s.news && s.room.flagRead.None? && s.room.syncer.SyncIdle?
        then With(s, Next(t, s.room, step)).(news := false) else s
    case Crash => With(s, Next(t, s.room, step)).(page := Resting, batch := Waiting, news := true)
    case _ => With(s, Next(t, s.room, step))
  }

  function Go(t: Thread, s: Live, m: Move): Live {
    match m
    case Handler(step) => Handle(t, s, step)
    case Ask => if s.page.Resting? then s.(page := Asked(s.reported, {})) else s
    case AskFails => if s.page.Asked? then s.(page := Resting) else s
    case FetchPage =>
      if s.page.Asked? && Empty(s, Poll)
      then s.(room := Next(t, s.room, Fetch(Poll, s.page.page)), page := Paging(s.page.since)) else s
    case SaveToken =>
      if s.page.Paging? && Empty(s, Poll) then s.(reported := s.page.since, page := Resting) else s
    case SaveTokenFails => if s.page.Paging? && Empty(s, Poll) then s.(page := Resting) else s
    case StartBatch(mails) =>
      if s.batch.Waiting? && mails <= s.ahead && Empty(s, Walk)
      then s.(room := Next(t, s.room, Fetch(Walk, mails)), batch := Batching(mails)) else s
    case FinishBatch =>
      if s.batch.Batching? && Empty(s, Walk) then s.(ahead := s.ahead - s.batch.mails, batch := Waiting) else s
    case BatchFails => if s.batch.Batching? && Empty(s, Walk) then s.(batch := Waiting) else s
    case Touch(e) => s.(reported := s.reported + {e}, page := Noted(s.page, {e}))
    case TouchFlag => s.(news := true)
  }

  function Moves(t: Thread, s: Live, moves: seq<Move>): Live
    decreases |moves|
  {
    if moves == [] then s else Moves(t, Go(t, s, moves[0]), moves[1..])
  }

  predicate MovePossible(w: Setting, m: Move) {
    match m
    case Handler(step) => Possible(w, step)
    case StartBatch(_) => w.walking
    case _ => true
  }

  ghost predicate MovesPossible(w: Setting, moves: seq<Move>) {
    forall m | m in moves :: MovePossible(w, m)
  }

  /** The user acts; what the action changes is reported. */
  function ActLive(s: Live, a: Action): Live {
    With(s, Act(s.room, a))
  }

  /** What the stores of the two tasks say of what they hold. */
  predicate Tidy(w: Setting, s: Live) {
    && (!s.page.Paging? ==> Empty(s, Poll))
    && (s.page.Asked? ==> s.reported == s.page.page + s.page.since)
    && (s.page.Paging? ==> s.page.since <= s.reported)
    && (!s.batch.Batching? ==> Empty(s, Walk))
    && (!w.walking ==> s.batch.Waiting?)
  }

  lemma HandlerStaysTidy(t: Thread, w: Setting, s: Live, step: Step)
    requires Tidy(w, s) && Possible(w, step)
    ensures Tidy(w, Handle(t, s, step))
  {
  }

  lemma MoveStaysTidy(t: Thread, w: Setting, s: Live, m: Move)
    requires Tidy(w, s) && MovePossible(w, m)
    ensures Tidy(w, Go(t, s, m))
  {
    match m
    case Handler(step) => HandlerStaysTidy(t, w, s, step);
    case _ => hide Next;
  }

  // ----- Every run is a run of `ReadState` ------------------------------------------------------

  /** The step a move takes in the room. */
  function StepsOf(s: Live, m: Move): seq<Step> {
    match m
    case Handler(step) =>
      if step.Fetch? || (step.ReadFlag? && !(s.news && s.room.flagRead.None? && s.room.syncer.SyncIdle?))
        then [] else [step]
    case FetchPage => if s.page.Asked? && Empty(s, Poll) then [Fetch(Poll, s.page.page)] else []
    case StartBatch(mails) => if s.batch.Waiting? && mails <= s.ahead && Empty(s, Walk)
      then [Fetch(Walk, mails)] else []
    case _ => []
  }

  lemma MoveIsStep(t: Thread, w: Setting, s: Live, m: Move)
    requires MovePossible(w, m)
    ensures PossibleRun(w, StepsOf(s, m)) && Go(t, s, m).room == Run(t, s.room, StepsOf(s, m))
  {
    hide Next;
    assert Run(t, s.room, []) == s.room;
    if StepsOf(s, m) != [] {
      assert StepsOf(s, m) == [StepsOf(s, m)[0]];
      RunOne(t, s.room, StepsOf(s, m)[0]);
    }
  }

  function RoomRun(t: Thread, s: Live, moves: seq<Move>): seq<Step>
    decreases |moves|
  {
    if moves == [] then [] else StepsOf(s, moves[0]) + RoomRun(t, Go(t, s, moves[0]), moves[1..])
  }

  /** What no run of `ReadState` does, no run here does: its results hold for the room. */
  lemma {:induction false} MovesAreRun(t: Thread, w: Setting, s: Live, moves: seq<Move>)
    requires MovesPossible(w, moves)
    ensures PossibleRun(w, RoomRun(t, s, moves)) && Moves(t, s, moves).room == Run(t, s.room, RoomRun(t, s, moves))
    decreases |moves|
  {
    if moves != [] {
      var m, rest := moves[0], moves[1..];
      hide Go, StepsOf, MovePossible, Possible;
      MoveIsStep(t, w, s, m);
      MovesAreRun(t, w, Go(t, s, m), rest);
      RunConcat(t, s.room, StepsOf(s, m), RoomRun(t, Go(t, s, m), rest));
    }
  }

  lemma MoveStaysInCorridor(t: Thread, g: Plan, s: Live, m: Move)
    requires t.latest == Some(g.latest) && Straight(g) && Corridor(g, s.room) && MovePossible(g.setting, m)
    ensures Corridor(g, Go(t, s, m).room)
  {
    MoveIsStep(t, g.setting, s, m);
    hide Corridor, Straight, Go, StepsOf;
    RunStaysInCorridor(t, g, s.room, StepsOf(s, m));
  }

  // ----- What is still to come --------------------------------------------------------------------

  /** The mails some task will still fetch. */
  function Coming(w: Setting, s: Live): set<Email> {
    (match s.page
     case Resting => s.reported
     case Asked(page, since) => page + since
     case Paging(since) => since)
    + if !w.walking then {} else match s.batch
      case Waiting => s.ahead
      case Batching(mails) => s.ahead - mails
  }

  /** The task is about to bring the gate of mail `e` to what the mail says. */
  predicate InHand(s: Room, k: Task, e: Email) {
    var r := ReaderOf(s, k);
    || (e in r.fetched && r.fetched[e] == (e in s.seen))
    || (e in s.seen && r.at in {ClearFlagNext(e), SaveGateNext(e)})
    || (e !in s.seen && r.at == DropGateNext(e))
  }

  predicate MailPending(w: Setting, s: Live, e: Email) {
    e in Coming(w, s) || InHand(s.room, Poll, e) || InHand(s.room, Walk, e)
  }

  /** The `/sync` loop will still bring the gate of the room to what the flag says. */
  predicate FlagPending(s: Live) {
    || s.news
    || (s.room.syncer.SyncIdle? && s.room.flagRead == Some(s.room.marked))
    || (s.room.syncer.SaveFlagGateNext? && s.room.marked)
  }

  /** The gate of mail `e` is not what the mail says, and no task will notice. */
  predicate MailLost(w: Setting, s: Live, e: Email) {
    (e in s.room.seen) != (e in s.room.synced) && !MailPending(w, s, e)
  }

  predicate FlagLost(s: Live) {
    s.room.marked != s.room.gated && !FlagPending(s)
  }

  ghost predicate NothingLost(w: Setting, s: Live) {
    (forall e :: !MailLost(w, s, e)) && !FlagLost(s)
  }

  /** Deliveries, each of whose calls works. */
  predicate Delivers(m: Move) {
    match m
    case Handler(step) =>
      (match step
       case Mirror(_, _) => true
       case ClearFlag(_) => true
       case SaveGate(_) => true
       case DropGate(_) => true
       case DeliverReceipt(_, _) => true
       case ReadFlag => true
       case ApplyFlag => true
       case SaveFlagGate => true
       case _ => false)
    case AskFails => false
    case SaveTokenFails => false
    case BatchFails => false
    case Touch(_) => false
    case TouchFlag => false
    case _ => true
  }

  ghost predicate Deliveries(w: Setting, moves: seq<Move>) {
    forall m | m in moves :: Delivers(m) && MovePossible(w, m)
  }

  /** No restart, no repeated page or batch, and nothing new about a mail or the flag; any other call may fail. */
  predicate BringsNothingBack(m: Move) {
    match m
    case Handler(step) => !step.Crash?
    case SaveTokenFails => false
    case BatchFails => false
    case Touch(_) => false
    case TouchFlag => false
    case _ => true
  }

  // ----- What is lost stays lost ------------------------------------------------------------------

  ghost predicate Off(s: Room, e: Email) {
    (e in s.seen) != (e in s.synced)
  }

  /** The gate of `e` differs from the mail and no reader is about to write it. */
  ghost predicate OffHand(s: Room, e: Email) {
    Off(s, e) && !InHand(s, Poll, e) && !InHand(s, Walk, e)
  }

  /** A mail whose gate differs has moved, and its gate has not. */
  lemma OffHasMoved(g: Plan, s: Room, e: Email)
    requires Corridor(g, s) && Off(s, e)
    ensures Moved(s.seen, g.from, e) && !Moved(s.synced, g.from, e)
    ensures e in s.seen <==> e in g.to
  {
  }

  lemma TakeUpKeepsOff(g: Plan, s: Room, k: Task, x: Email, synced: bool, e: Email)
    requires Straight(g) && Corridor(g, s) && (k.Walk? ==> g.setting.walking) && OffHand(s, e)
    requires synced == (x in s.synced) || (!synced && g.setting.gateReadsFail)
    ensures OffHand(TakeUp(s, k, x, synced), e) && TakeUp(s, k, x, synced).seen == s.seen
  {
    OffHasMoved(g, s, e);
    var r := ReaderOf(s, k);
    if x in r.fetched { assert EntryInv(g, s, x, r.fetched[x]); }
    hide FlagInv, MailsInv;
  }

  lemma PlaceStepKeepsOff(t: Thread, g: Plan, s: Room, k: Task, step: Step, e: Email)
    requires Corridor(g, s) && (k.Walk? ==> g.setting.walking) && OffHand(s, e)
    requires step in {ClearFlag(k), ClearFlagFails(k), SaveGate(k), DropGate(k), GiveUp(k)} ||
      (step.MirrorFails? && step.task == k)
    ensures OffHand(Next(t, s, step), e) && Next(t, s, step).seen == s.seen
  {
    assert PlaceInv(g, s, ReaderOf(s, k));
    hide FlagInv, MailsInv, EntryInv;
  }

  lemma ReceiptStepKeepsOff(t: Thread, g: Plan, s: Room, step: Step, e: Email)
    requires Corridor(g, s) && OffHand(s, e) && (step.DeliverReceipt? || step.ReceiptFails?)
    ensures OffHand(Next(t, s, step), e) && (e in Next(t, s, step).seen <==> e in s.seen)
  {
    OffHasMoved(g, s, e);
  }

  lemma FlagStepKeepsOff(t: Thread, g: Plan, s: Room, step: Step, e: Email)
    requires t.latest == Some(g.latest) && Straight(g) && Corridor(g, s) && Possible(g.setting, step) && OffHand(s, e)
    requires
      || step.ReadFlag? || step.ApplyFlag? || step.MisreadFlagGate? || step.ApplyFlagFails?
      || step.SaveFlagGate? || step.SaveFlagGateFails?
    ensures OffHand(Next(t, s, step), e) && (e in Next(t, s, step).seen <==> e in s.seen)
  {
    OffHasMoved(g, s, e);
    hide ReaderInv;
  }

  lemma StepKeepsOff(t: Thread, g: Plan, s: Room, step: Step, e: Email)
    requires t.latest == Some(g.latest) && Straight(g) && Corridor(g, s) && Possible(g.setting, step) && OffHand(s, e)
    requires !step.Fetch? && !step.Crash?
    ensures OffHand(Next(t, s, step), e) && (e in Next(t, s, step).seen <==> e in s.seen)
  {
    hide Corridor, Straight, Next, OffHand;
    match step
    case Mirror(k, x) => TakeUpKeepsOff(g, s, k, x, x in s.synced, e); NextIsTakeUp(t, s, step);
    case MisreadGate(k, x) => TakeUpKeepsOff(g, s, k, x, false, e); NextIsTakeUp(t, s, step);
    case MirrorFails(k, _) => PlaceStepKeepsOff(t, g, s, k, step, e);
    case ClearFlag(k) => PlaceStepKeepsOff(t, g, s, k, step, e);
    case ClearFlagFails(k) => PlaceStepKeepsOff(t, g, s, k, step, e);
    case SaveGate(k) => PlaceStepKeepsOff(t, g, s, k, step, e);
    case DropGate(k) => PlaceStepKeepsOff(t, g, s, k, step, e);
    case GiveUp(k) => PlaceStepKeepsOff(t, g, s, k, step, e);
    case DeliverReceipt(_, _) => ReceiptStepKeepsOff(t, g, s, step, e);
    case ReceiptFails(_, _) => ReceiptStepKeepsOff(t, g, s, step, e);
    case _ => FlagStepKeepsOff(t, g, s, step, e);
  }

  /**
   * Whatever fails and whatever works, nothing but news of the mail, a restart or a
   * repeated page finds a lost mail again.
   */
  lemma LostMailStays(t: Thread, g: Plan, s: Live, m: Move, e: Email)
    requires t.latest == Some(g.latest) && Straight(g) && Corridor(g, s.room) && Tidy(g.setting, s)
    requires MovePossible(g.setting, m) && BringsNothingBack(m) && MailLost(g.setting, s, e)
    ensures MailLost(g.setting, Go(t, s, m), e)
  {
    assert OffHand(s.room, e);
    match m
    case Handler(step) =>
      if !step.Fetch? {
        StepKeepsOff(t, g, s.room, step, e);
        HandleKeepsComing(t, g.setting, s, step, e);
      }
    case FetchPage => assert e !in Coming(g.setting, s);
    case StartBatch(_) => assert e !in Coming(g.setting, s);
    case _ =>
  }

  lemma HandleKeepsComing(t: Thread, w: Setting, s: Live, step: Step, e: Email)
    requires !step.Fetch? && !step.Crash? && (e in Next(t, s.room, step).seen <==> e in s.room.seen)
    ensures e in Coming(w, Handle(t, s, step)) <==> e in Coming(w, s)
    ensures Handle(t, s, step).room == Next(t, s.room, step) || Handle(t, s, step) == s
  {
    hide Next;
  }

  lemma LostFlagStays(t: Thread, g: Plan, s: Live, m: Move)
    requires t.latest == Some(g.latest) && Straight(g) && Corridor(g, s.room)
    requires MovePossible(g.setting, m) && BringsNothingBack(m) && FlagLost(s)
    ensures FlagLost(Go(t, s, m))
  {
    if m.Handler? && !m.step.Fetch? && !m.step.ReadFlag? {
      LostFlagStepStays(t, g, s, m.step);
    }
    hide Corridor, Straight, Next;
  }

  /** The flag is where it is to be, the gate where it was, and no step takes either further. */
  lemma LostFlagStepStays(t: Thread, g: Plan, s: Live, step: Step)
    requires t.latest == Some(g.latest) && Straight(g) && Corridor(g, s.room) && Possible(g.setting, step)
    requires FlagLost(s)
    requires !step.Crash? && !step.ReadFlag? && !step.Fetch?
    ensures FlagLost(Handle(t, s, step))
  {
    StepIsTowards(t, g, s.room, step);
    assert s.room.marked == g.will && Next(t, s.room, step).marked == g.will;
    assert s.room.syncer.SaveFlagGateNext? ==> s.room.flagRead.None?;
    GateWaits(t, s.room, step);
    hide Next, Corridor, Straight, NoFurther;
  }

  /** A loop that holds no flag, or an older one, does not write the gate. */
  lemma GateWaits(t: Thread, s: Room, step: Step)
    requires s.marked != s.gated && !step.ReadFlag? && !step.Crash? && Next(t, s, step).marked == s.marked
    requires !(s.syncer.SyncIdle? && s.flagRead == Some(s.marked)) && !(s.syncer.SaveFlagGateNext? && s.marked)
    requires s.syncer.SaveFlagGateNext? ==> s.flagRead.None?
    ensures
      var s' := Next(t, s, step);
      && s'.gated == s.gated
      && !(s'.syncer.SyncIdle? && s'.flagRead == Some(s'.marked)) && !(s'.syncer.SaveFlagGateNext? && s'.marked)
  {
  }

  // ----- Deliveries that work lose nothing --------------------------------------------------------

  predicate Works(step: Step) {
    Delivers(Handler(step))
  }

  lemma TakeUpLosesNone(g: Plan, s: Room, k: Task, x: Email, e: Email)
    requires Straight(g) && Corridor(g, s) && (k.Walk? ==> g.setting.walking)
    ensures OffHand(TakeUp(s, k, x, x in s.synced), e) ==> OffHand(s, e)
  {
    var r := ReaderOf(s, k);
    if x in r.fetched { assert EntryInv(g, s, x, r.fetched[x]); }
    hide FlagInv;
  }

  lemma PlaceStepLosesNone(t: Thread, g: Plan, s: Room, k: Task, step: Step, e: Email)
    requires Corridor(g, s) && (k.Walk? ==> g.setting.walking) && step in {ClearFlag(k), SaveGate(k), DropGate(k)}
    ensures OffHand(Next(t, s, step), e) ==> OffHand(s, e)
  {
    assert PlaceInv(g, s, ReaderOf(s, k));
    hide FlagInv, MailsInv, EntryInv;
  }

  lemma OtherStepLosesNone(t: Thread, s: Room, step: Step, e: Email)
    requires step.DeliverReceipt? || step.ReadFlag? || step.ApplyFlag? || step.SaveFlagGate?
    requires e in Next(t, s, step).seen <==> e in s.seen
    ensures OffHand(Next(t, s, step), e) ==> OffHand(s, e)
  {
  }

  lemma StepLosesNone(t: Thread, g: Plan, s: Room, step: Step, e: Email)
    requires Straight(g) && Corridor(g, s) && Possible(g.setting, step) && Works(step)
    requires e in Next(t, s, step).seen <==> e in s.seen
    ensures OffHand(Next(t, s, step), e) ==> OffHand(s, e)
  {
    hide Corridor, Straight, Next, OffHand;
    match step
    case Mirror(k, x) => TakeUpLosesNone(g, s, k, x, e); NextIsTakeUp(t, s, step);
    case ClearFlag(k) => PlaceStepLosesNone(t, g, s, k, step, e);
    case SaveGate(k) => PlaceStepLosesNone(t, g, s, k, step, e);
    case DropGate(k) => PlaceStepLosesNone(t, g, s, k, step, e);
    case _ => OtherStepLosesNone(t, s, step, e);
  }

  lemma ChangeIsComing(t: Thread, w: Setting, s: Live, step: Step, e: Email)
    requires !step.Fetch? && !step.Crash? && !step.ReadFlag? && (e in Next(t, s.room, step).seen <==> e !in s.room.seen)
    ensures e in Coming(w, Handle(t, s, step))
  {
    hide Next;
  }

  lemma DeliveryLosesNoMail(t: Thread, g: Plan, s: Live, m: Move, e: Email)
    requires Straight(g) && Corridor(g, s.room) && Tidy(g.setting, s) && Delivers(m) && MovePossible(g.setting, m)
    requires !MailLost(g.setting, s, e)
    ensures !MailLost(g.setting, Go(t, s, m), e)
  {
    match m
    case Handler(step) =>
      if e in Next(t, s.room, step).seen <==> e in s.room.seen {
        StepLosesNone(t, g, s.room, step, e);
        HandleKeepsComing(t, g.setting, s, step, e);
        hide Next;
      } else {
        ChangeIsComing(t, g.setting, s, step, e);
      }
    case _ => hide Corridor, Straight;
  }

  lemma DeliveryLosesNoFlag(t: Thread, g: Plan, s: Live, m: Move)
    requires t.latest == Some(g.latest) && Straight(g) && Corridor(g, s.room) && Delivers(m)
    requires MovePossible(g.setting, m)
    requires !FlagLost(s)
    ensures !FlagLost(Go(t, s, m))
  {
    MoveStaysInCorridor(t, g, s, m);
    if m.Handler? {
      StepIsTowards(t, g, s.room, m.step);
      GateStepLosesNoFlag(t, g, s, m.step);
    }
    hide Corridor, Straight, Next;
  }

  lemma GateStepLosesNoFlag(t: Thread, g: Plan, s: Live, step: Step)
    requires t.latest == Some(g.latest) && FlagInv(g, s.room) && FlagInv(g, Handle(t, s, step).room)
    requires Works(step) && !FlagLost(s) && NoFurther(g, s.room, Next(t, s.room, step))
    ensures !FlagLost(Handle(t, s, step))
  {
  }

  lemma DeliveryLosesNothing(t: Thread, g: Plan, s: Live, m: Move)
    requires t.latest == Some(g.latest) && Straight(g) && Corridor(g, s.room) && Tidy(g.setting, s)
    requires Delivers(m) && MovePossible(g.setting, m) && NothingLost(g.setting, s)
    ensures NothingLost(g.setting, Go(t, s, m))
  {
    hide Corridor, Straight, Tidy, Delivers, MailLost, FlagLost, Go;
    forall e ensures !MailLost(g.setting, Go(t, s, m), e) { DeliveryLosesNoMail(t, g, s, m, e); }
    DeliveryLosesNoFlag(t, g, s, m);
  }

  /** The invariant of a run of deliveries. */
  ghost predicate OnTrack(g: Plan, s: Live) {
    Corridor(g, s.room) && Tidy(g.setting, s) && NothingLost(g.setting, s)
  }

  lemma {:induction false} DeliveriesStayOnTrack(t: Thread, g: Plan, s: Live, moves: seq<Move>)
    requires t.latest == Some(g.latest) && Straight(g) && OnTrack(g, s) && Deliveries(g.setting, moves)
    ensures OnTrack(g, Moves(t, s, moves))
    decreases |moves|
  {
    hide Corridor, Straight, Tidy, NothingLost, Go, Delivers, MovePossible;
    if moves != [] {
      DeliveryLosesNothing(t, g, s, moves[0]);
      MoveStaysInCorridor(t, g, s, moves[0]);
      MoveStaysTidy(t, g.setting, s, moves[0]);
      DeliveriesStayOnTrack(t, g, Go(t, s, moves[0]), moves[1..]);
    }
  }

  // ----- What each failing call costs --------------------------------------------------------------

  /** Somebody else than task `k`'s present turn will bring the mail's gate in line. */
  predicate PendingElsewhere(w: Setting, s: Live, k: Task, e: Email) {
    e in Coming(w, s) || InHand(s.room, if k.Poll? then Walk else Poll, e)
  }

  /**
   * The token, the thread or the event is not found, or the first call fails: the edge is
   * lost unless it comes again.
   */
  lemma FailedMirrorLosesIff(t: Thread, w: Setting, s: Live, k: Task, e: Email)
    requires ReaderOf(s.room, k).at.Idle? && Off(s.room, e)
    ensures MailLost(w, Go(t, s, Handler(MirrorFails(k, e))), e) <==> !PendingElsewhere(w, s, k, e)
  {
  }

  /** A gate that cannot be read hides the edge of a mail that became unread. */
  lemma MisreadGateLosesIff(t: Thread, w: Setting, s: Live, k: Task, e: Email)
    requires ReaderOf(s.room, k).at.Idle? && Off(s.room, e) && e !in s.room.seen
    requires e in ReaderOf(s.room, k).fetched && !ReaderOf(s.room, k).fetched[e]
    ensures MailLost(w, Go(t, s, Handler(MisreadGate(k, e))), e) <==> !PendingElsewhere(w, s, k, e)
  {
  }

  /** The mail was mirrored, but its gate is not written. */
  lemma UnwrittenGateLosesIff(t: Thread, w: Setting, s: Live, k: Task, e: Email)
    requires Off(s.room, e) && ReaderOf(s.room, k).at in {SaveGateNext(e), DropGateNext(e)}
    requires e !in ReaderOf(s.room, k).fetched
    ensures MailLost(w, Go(t, s, Handler(GiveUp(k))), e) <==> !PendingElsewhere(w, s, k, e)
  {
  }

  /**
   * The latest mail cannot be marked unread, or the gate cannot be deleted: the flag is
   * lost unless it changes again.
   */
  lemma FailedFlagLosesIff(t: Thread, s: Live)
    requires s.room.syncer.SyncIdle? && s.room.marked != s.room.gated
    ensures FlagLost(Go(t, s, Handler(ApplyFlagFails))) <==> !s.news
  {
  }

  /** A gate that cannot be read hides that the flag was cleared. */
  lemma MisreadFlagGateLosesIff(t: Thread, s: Live)
    requires s.room.syncer.SyncIdle? && s.room.flagRead == Some(false) && !s.room.marked && s.room.gated
    ensures FlagLost(Go(t, s, Handler(MisreadFlagGate))) <==> !s.news
  {
  }

  /** The latest mail was marked unread, but the gate is not written. */
  lemma UnwrittenFlagGateLosesIff(t: Thread, s: Live)
    requires s.room.syncer.SaveFlagGateNext? && s.room.flagRead.None? && s.room.marked && !s.room.gated
    ensures FlagLost(Go(t, s, Handler(SaveFlagGateFails))) <==> !s.news
  {
  }

  /** A restart finds again what the tokens of poller and walk are still to pass, and every flag. */
  lemma RestartFindsAgainIff(t: Thread, w: Setting, s: Live, e: Email)
    requires Off(s.room, e)
    ensures
      var s' := Go(t, s, Handler(Crash));
      && (MailLost(w, s', e) <==> !(e in s.reported || (w.walking && e in s.ahead)))
      && !FlagLost(s')
  {
    assert Changed(s.room.seen, s.room.seen) == {};
  }

  /** So does a token or a position that is not stored: the page or batch comes again. */
  lemma RepeatedPageFindsAgainIff(t: Thread, w: Setting, s: Live, e: Email)
    requires Off(s.room, e) && Tidy(w, s)
    requires s.page.Paging? && Empty(s, Poll) && s.batch.Waiting?
    ensures MailLost(w, Go(t, s, SaveTokenFails), e) <==> !(e in s.reported || (w.walking && e in s.ahead))
  {
  }
}
