/**
 * Every run of the outbound queue: users enqueue, edit and cancel while the
 * worker submits from a snapshot it took earlier. Store writes may be lost and
 * the bridge may restart anywhere.
 */
module OutboundRuns {
  import opened Wrappers
  import opened OutboundQueue

  datatype Event =
    | Enqueued(event: string, body: string)
    | BodySet(event: string, body: string)   // an edit arrived
    | Dropped(event: string)                 // a cancellation arrived
    | Snapshot
    | Attempt(id: nat, event: string, body: string, retries: nat, at: nat)
    | Failure(id: nat, retries: nat, at: nat) // the failure that made the stored count `retries`
    | GaveUp(id: nat)
    | WriteLost(id: nat)                     // an attempt the table never learned of

  datatype State = State(
    now: nat,
    rows: Table,
    nextId: nat,
    batch: seq<Row>,        // the worker's snapshot, less what it has taken up
    current: Option<Row>,   // the row being submitted
    used: set<string>,      // event ids enqueued so far
    log: seq<Event>)

  datatype Step =
    | Tick(seconds: nat)
    | Enqueue(event: string, body: string, delay: nat)
    | Edit(event: string, body: string)
    | Cancel(event: string)
    | TakeSnapshot(taken: seq<Row>)
    | Start
    | Finish(outcome: Outcome, stored: bool)
    | Restart

  /** The log after a submission ended; `stored` tells whether the table learned of it. */
  function Finished(log: seq<Event>, row: Row, outcome: Outcome, stored: bool, now: nat): seq<Event> {
    var told := if outcome.Failed? && GivesUp(row) then log + [GaveUp(row.id)] else log;
    if !stored then told + [WriteLost(row.id)]
    else if outcome.Failed? && !GivesUp(row) then told + [Failure(row.id, row.retries + 1, now)]
    else told
  }

  function Next(s: State, step: Step): State {
    match step
    case Tick(d) => s.(now := s.now + d)
    case Enqueue(event, body, delay) =>
      if event in s.used then s else
      s.(rows := s.rows[s.nextId := Row(s.nextId, event, body, s.now + delay, 0, s.now)], nextId := s.nextId + 1,
         used := s.used + {event}, log := s.log + [Enqueued(event, body)])
    case Edit(event, body) =>
      s.(rows := Edited(s.rows, event, body), log := s.log + [BodySet(event, body)])
    case Cancel(event) =>
      s.(rows := Cancelled(s.rows, event), log := s.log + [Dropped(event)])
    case TakeSnapshot(taken) =>
      if s.batch == [] && s.current.None? then s.(batch := taken, log := s.log + [Snapshot]) else s
    case Start =>
      if s.batch == [] || s.current.Some? then s else
      var row := s.batch[0];
      s.(batch := s.batch[1..], current := Some(row),
         log := s.log + [Attempt(row.id, row.event, row.body, row.retries, s.now)])
    case Finish(outcome, stored) =>
      if s.current.None? then s else
      var row := s.current.value;
      s.(current := None, rows := if stored then Resolved(s.rows, row, outcome, s.now) else s.rows,
         log := Finished(s.log, row, outcome, stored, s.now))
    case Restart =>
      s.(batch := [], current := None,
         log := if s.current.Some? then s.log + [WriteLost(s.current.value.id)] else s.log)
  }

  /** A snapshot is what the query may return at that moment. */
  ghost predicate Allowed(s: State, step: Step) {
    step.TakeSnapshot? ==> IsBatch(s.rows, s.now, step.taken)
  }

  ghost predicate AllowedRun(s: State, steps: seq<Step>)
    decreases |steps|
  {
    steps == [] || (Allowed(s, steps[0]) && AllowedRun(Next(s, steps[0]), steps[1..]))
  }

  function Run(s: State, steps: seq<Step>): State
    decreases |steps|
  {
    if steps == [] then s else Run(Next(s, steps[0]), steps[1..])
  }

  predicate Initial(s: State) {
    s.rows == map[] && s.batch == [] && s.current.None? && s.used == {} && s.log == []
  }

  // ----- Counting in the log ----------------------------------------------------

  function Attempts(log: seq<Event>, id: nat): nat {
    if log == [] then 0 else
    var e := log[|log| - 1];
    Attempts(log[..|log| - 1], id) + (if e.Attempt? && e.id == id then 1 else 0)
  }

  function Losses(log: seq<Event>, id: nat): nat {
    if log == [] then 0 else
    var e := log[|log| - 1];
    Losses(log[..|log| - 1], id) + (if e.WriteLost? && e.id == id then 1 else 0)
  }

  function Notices(log: seq<Event>, id: nat): nat {
    if log == [] then 0 else
    var e := log[|log| - 1];
    Notices(log[..|log| - 1], id) + (if e.GaveUp? && e.id == id then 1 else 0)
  }

  /** The body a message has after the log: that of its last edit, else the enqueued one. */
  function BodyAt(log: seq<Event>, event: string): Option<string> {
    if log == [] then None else
    var e := log[|log| - 1];
    if (e.Enqueued? || e.BodySet?) && e.event == event then Some(e.body) else BodyAt(log[..|log| - 1], event)
  }

  /** The log up to its last snapshot. */
  function UpToSnapshot(log: seq<Event>): seq<Event> {
    if log == [] then [] else
    if log[|log| - 1].Snapshot? then log else UpToSnapshot(log[..|log| - 1])
  }

  lemma Appended(log: seq<Event>, e: Event, id: nat, event: string)
    ensures Attempts(log + [e], id) == Attempts(log, id) + (if e.Attempt? && e.id == id then 1 else 0)
    ensures Losses(log + [e], id) == Losses(log, id) + (if e.WriteLost? && e.id == id then 1 else 0)
    ensures Notices(log + [e], id) == Notices(log, id) + (if e.GaveUp? && e.id == id then 1 else 0)
    ensures BodyAt(log + [e], event) ==
      if (e.Enqueued? || e.BodySet?) && e.event == event then Some(e.body) else BodyAt(log, event)
    ensures UpToSnapshot(log + [e]) == if e.Snapshot? then log + [e] else UpToSnapshot(log)
  {
    assert (log + [e])[..|log|] == log;
  }

  // ----- The invariant ------------------------------------------------------------

  /** The row as the table has it, if it still has it, was not touched by the worker since. */
  ghost predicate StillQueued(s: State, row: Row) {
    row.id in s.rows ==>
      && s.rows[row.id].retries == row.retries
      && s.rows[row.id].lastRetry == row.lastRetry
      && s.rows[row.id].releaseAt == row.releaseAt
      && s.rows[row.id].event == row.event
  }

  ghost predicate Taken(s: State, row: Row) {
    && row.id < s.nextId && row.event in s.used
    && Eligible(row, s.now)
    && StillQueued(s, row)
  }

  ghost predicate Shape(s: State) {
    && Keyed(s.rows, s.nextId)
    && (forall id | id in s.rows ::
          s.rows[id].retries <= 9 && s.rows[id].event in s.used && s.rows[id].lastRetry <= s.now)
    && (forall i | 0 <= i < |s.batch| :: Taken(s, s.batch[i]))
    && (forall i, j | 0 <= i < j < |s.batch| :: s.batch[i].id != s.batch[j].id)
    && (s.current.Some? ==>
          Taken(s, s.current.value) && forall i | 0 <= i < |s.batch| :: s.batch[i].id != s.current.value.id)
  }

  lemma UserKeepsShape(s: State, step: Step)
    requires Shape(s) && (step.Enqueue? || step.Edit? || step.Cancel?)
    ensures Shape(Next(s, step))
  {
    hide Eligible;
  }

  lemma WorkerKeepsShape(s: State, step: Step)
    requires Shape(s) && Allowed(s, step) && (step.TakeSnapshot? || step.Start? || step.Restart?)
    ensures Shape(Next(s, step))
  {
    hide Eligible;
  }

  lemma FinishKeepsShape(s: State, outcome: Outcome, stored: bool)
    requires Shape(s)
    ensures Shape(Next(s, Finish(outcome, stored)))
  {
    hide Eligible, Finished;
  }

  lemma TimeKeepsShape(s: State, seconds: nat)
    requires Shape(s)
    ensures Shape(Next(s, Tick(seconds)))
  {
    hide BackoffMinutes;
  }

  lemma StepKeepsShape(s: State, step: Step)
    requires Shape(s) && Allowed(s, step)
    ensures Shape(Next(s, step))
  {
    hide Shape, Next;
    match step
    case Tick(seconds) => TimeKeepsShape(s, seconds);
    case Finish(outcome, stored) => FinishKeepsShape(s, outcome, stored);
    case Enqueue(_, _, _) => UserKeepsShape(s, step);
    case Edit(_, _) => UserKeepsShape(s, step);
    case Cancel(_) => UserKeepsShape(s, step);
    case _ => WorkerKeepsShape(s, step);
  }

  ghost predicate InFlight(s: State, id: nat) {
    s.current.Some? && s.current.value.id == id
  }

  /** How often one row was attempted, next to what the table and the worker know of it. */
  ghost predicate Counted(s: State, id: nat) {
    var a, l, n := Attempts(s.log, id), Losses(s.log, id), Notices(s.log, id);
    && (id >= s.nextId ==> a == 0 && l == 0 && n == 0)
    && a <= 10 + l && n <= 1 + l && (n > 0 ==> a >= 10)
    && (id in s.rows ==> a == s.rows[id].retries + l + (if InFlight(s, id) then 1 else 0) && n <= l)
    && (forall i | 0 <= i < |s.batch| && s.batch[i].id == id :: a == s.batch[i].retries + l && n <= l)
    && (InFlight(s, id) ==> a == s.current.value.retries + l + 1 && n <= l)
  }

  function Pow2(k: nat): (p: nat)
    ensures p >= 1
  {
    if k == 0 then 1 else 2 * Pow2(k - 1)
  }

  lemma BackoffIsExponential(retries: nat)
    requires 1 <= retries <= 9
    ensures BackoffMinutes(retries) == Pow2(retries - 1)
  {
    assert Pow2(0) == 1 && Pow2(1) == 2 && Pow2(2) == 4 && Pow2(3) == 8 && Pow2(4) == 16;
    assert Pow2(5) == 32 && Pow2(6) == 64 && Pow2(7) == 128 && Pow2(8) == 256;
  }

  /**
   * A row is due once its hold is over and, after `k` failures, `2^(k-1)` minutes have
   * passed since the last; at ten, never.
   */
  lemma DueIff(row: Row, now: nat)
    ensures Eligible(row, now) <==>
      && now >= row.releaseAt && row.retries <= 9
      && (row.retries >= 1 ==> now > row.lastRetry + 60 * Pow2(row.retries - 1))
  {
    if 1 <= row.retries <= 9 { BackoffIsExponential(row.retries); }
    hide BackoffMinutes, Pow2;
  }

  /** A row at `retries` failures, the last at `last`, leaves this event of its past far enough behind. */
  ghost predicate Behind(e: Event, retries: nat, last: nat) {
    match e
    case Attempt(_, _, _, k, t) => k <= retries && (k < retries ==> last >= t + 60 * (Pow2(retries - 1) - Pow2(k)))
    case Failure(_, k, t) => 1 <= k <= retries && last >= t + 60 * (Pow2(retries - 1) - Pow2(k - 1))
    case _ => true
  }

  ghost predicate About(e: Event, id: nat) {
    (e.Attempt? || e.Failure?) && e.id == id
  }

  ghost predicate SpacedFrom(s: State, id: nat, e: Event) {
    About(e, id) ==>
      && e.at <= s.now && id < s.nextId
      && (id in s.rows ==> Behind(e, s.rows[id].retries, s.rows[id].lastRetry))
      && (forall i | 0 <= i < |s.batch| && s.batch[i].id == id :: Behind(e, s.batch[i].retries, s.batch[i].lastRetry))
      && (InFlight(s, id) ==> Behind(e, s.current.value.retries, s.current.value.lastRetry))
  }

  /** The later attempt waited out every backoff since the earlier event. */
  ghost predicate Apart(early: Event, late: Event) {
    late.Attempt? ==>
      match early
      case Attempt(_, _, _, k, t) => k <= late.retries &&
        (k < late.retries ==> late.at > t + 60 * (Pow2(late.retries) - Pow2(k)))
      case Failure(_, k, t) => 1 <= k <= late.retries && late.at > t + 60 * (Pow2(late.retries) - Pow2(k - 1))
      case _ => true
  }

  ghost predicate Spaced(s: State, id: nat) {
    && (forall i | 0 <= i < |s.log| :: SpacedFrom(s, id, s.log[i]))
    && (forall i, j | 0 <= i < j < |s.log| && About(s.log[i], id) && About(s.log[j], id) :: Apart(s.log[i], s.log[j]))
  }

  lemma StartKeepsCounted(s: State, id: nat)
    requires Shape(s) && Counted(s, id) && s.batch != [] && s.current.None?
    ensures Counted(Next(s, Start), id)
  {
    var row := s.batch[0];
    Appended(s.log, Attempt(row.id, row.event, row.body, row.retries, s.now), id, "");
    var s' := Next(s, Start);
    forall i | 0 <= i < |s'.batch| ensures s'.batch[i] == s.batch[i + 1] && s'.batch[i].id != row.id {}
  }

  /** What a finished submission adds to the counts. */
  lemma {:induction false} FinishCounts(log: seq<Event>, row: Row, outcome: Outcome, stored: bool, now: nat, id: nat)
    ensures
      var log' := Finished(log, row, outcome, stored, now);
      && Attempts(log', id) == Attempts(log, id)
      && Losses(log', id) == Losses(log, id) + (if !stored && row.id == id then 1 else 0)
      && Notices(log', id) == Notices(log, id) + (if outcome.Failed? && GivesUp(row) && row.id == id then 1 else 0)
  {
    hide Attempts, Losses, Notices, BodyAt, UpToSnapshot;
    var told := if outcome.Failed? && GivesUp(row) then log + [GaveUp(row.id)] else log;
    Appended(log, GaveUp(row.id), id, "");
    Appended(told, WriteLost(row.id), id, "");
    Appended(told, Failure(row.id, row.retries + 1, now), id, "");
  }

  /** The worker finished with another row. */
  lemma OtherFinishKeepsCounted(s: State, s': State, id: nat)
    requires Counted(s, id) && !InFlight(s, id) && s'.current.None? && s'.batch == s.batch && s'.nextId == s.nextId
    requires id in s'.rows ==> id in s.rows && s'.rows[id].retries == s.rows[id].retries
    requires Attempts(s'.log, id) == Attempts(s.log, id)
    requires Losses(s'.log, id) == Losses(s.log, id) && Notices(s'.log, id) == Notices(s.log, id)
    ensures Counted(s', id)
  {
    hide Attempts, Losses, Notices;
  }

  /** The worker finished with this row: a failure, a notice or a lost write accounts for the attempt. */
  lemma OwnFinishKeepsCounted(s: State, s': State, id: nat, row: Row)
    requires Counted(s, id) && s.current == Some(row) && row.id == id && id < s.nextId
    requires s'.current.None? && s'.nextId == s.nextId && forall i | 0 <= i < |s'.batch| :: s'.batch[i].id != id
    requires Attempts(s'.log, id) == Attempts(s.log, id) && row.retries <= 9
    requires Losses(s.log, id) <= Losses(s'.log, id) <= Losses(s.log, id) + 1
    requires Notices(s.log, id) <= Notices(s'.log, id) <= Notices(s.log, id) + if row.retries >= 9 then 1 else 0
    requires id in s'.rows ==>
      && s'.rows[id].retries + Losses(s'.log, id) == row.retries + Losses(s.log, id) + 1
      && (Notices(s'.log, id) == Notices(s.log, id) || Losses(s'.log, id) == Losses(s.log, id) + 1)
    ensures Counted(s', id)
  {
    hide Attempts, Losses, Notices;
  }

  lemma FinishKeepsCounted(s: State, outcome: Outcome, stored: bool, id: nat)
    requires Shape(s) && Counted(s, id) && s.current.Some?
    ensures Counted(Next(s, Finish(outcome, stored)), id)
  {
    var row, s' := s.current.value, Next(s, Finish(outcome, stored));
    FinishCounts(s.log, row, outcome, stored, s.now, id);
    assert Taken(s, row);
    hide Attempts, Losses, Notices, Finished, Counted, BackoffMinutes;
    if row.id == id {
      OwnFinishKeepsCounted(s, s', id, row);
    } else {
      OtherFinishKeepsCounted(s, s', id);
    }
  }

  /** Neither the worker nor the counts changed, and rows kept their counts or are new. */
  lemma RowsKeepCounted(s: State, s': State, id: nat)
    requires Counted(s, id) && s'.batch == s.batch && s'.current == s.current && s.nextId <= s'.nextId
    requires Attempts(s'.log, id) == Attempts(s.log, id)
    requires Losses(s'.log, id) == Losses(s.log, id) && Notices(s'.log, id) == Notices(s.log, id)
    requires id in s'.rows ==>
      || (id in s.rows && s'.rows[id].retries == s.rows[id].retries)
      || (id >= s.nextId && s'.rows[id].retries == 0 && !InFlight(s, id))
    ensures Counted(s', id)
  {
    hide Attempts, Losses, Notices;
  }

  lemma NextIdIsFree(s: State)
    requires Shape(s)
    ensures s.nextId !in s.rows && (s.current.Some? ==> s.current.value.id < s.nextId)
  {
    hide Eligible;
  }

  /** A user's step leaves a count of every row as it is, or adds a new row. */
  lemma UserKeepsRetries(s: State, step: Step, id: nat)
    requires step.Enqueue? || step.Edit? || step.Cancel?
    ensures
      var s' := Next(s, step);
      && s'.batch == s.batch && s'.current == s.current && s.nextId <= s'.nextId
      && (id in s'.rows ==>
            || (id in s.rows && s'.rows[id].retries == s.rows[id].retries)
            || (id == s.nextId && s'.rows[id].retries == 0))
  {
  }

  /** What a user's step adds to the log counts for no row. */
  lemma UserAddsNoCount(s: State, step: Step, id: nat)
    requires step.Enqueue? || step.Edit? || step.Cancel?
    ensures
      var log := Next(s, step).log;
      Attempts(log, id) == Attempts(s.log, id) && Losses(log, id) == Losses(s.log, id) &&
        Notices(log, id) == Notices(s.log, id)
  {
    hide Attempts, Losses, Notices, BodyAt, UpToSnapshot, Cancelled, Edited;
    match step
    case Enqueue(event, body, _) => Appended(s.log, Enqueued(event, body), id, "");
    case Edit(event, body) => Appended(s.log, BodySet(event, body), id, "");
    case Cancel(event) => Appended(s.log, Dropped(event), id, "");
  }

  lemma UserKeepsCounted(s: State, step: Step, id: nat)
    requires Shape(s) && Counted(s, id)
    requires step.Enqueue? || step.Edit? || step.Cancel?
    ensures Counted(Next(s, step), id)
  {
    hide Shape, Counted, Next, Attempts, Losses, Notices;
    NextIdIsFree(s);
    UserKeepsRetries(s, step, id);
    UserAddsNoCount(s, step, id);
    RowsKeepCounted(s, Next(s, step), id);
  }

  lemma StepKeepsCounted(s: State, step: Step, id: nat)
    requires Shape(s) && Allowed(s, step) && Counted(s, id)
    ensures Counted(Next(s, step), id)
  {
    hide Attempts, Losses, Notices;
    if step.Enqueue? || step.Edit? || step.Cancel? {
      UserKeepsCounted(s, step, id);
    } else if step.Start? {
      if s.batch != [] && s.current.None? { StartKeepsCounted(s, id); }
    } else if step.Finish? {
      if s.current.Some? { FinishKeepsCounted(s, step.outcome, step.stored, id); }
    } else if step.Restart? {
      if s.current.Some? { Appended(s.log, WriteLost(s.current.value.id), id, ""); }
    } else if step.TakeSnapshot? {
      Appended(s.log, Snapshot, id, "");
    }
  }

  lemma StartKeepsSpaced(s: State, id: nat)
    requires Shape(s) && Spaced(s, id) && s.batch != [] && s.current.None?
    ensures Spaced(Next(s, Start), id)
  {
    var s' := Next(s, Start);
    var row := s.batch[0];
    if row.retries > 0 { BackoffIsExponential(row.retries); }
    forall i, j | 0 <= i < j < |s'.log| && About(s'.log[i], id) && About(s'.log[j], id)
      ensures Apart(s'.log[i], s'.log[j])
    {
      assert s'.log[i] == s.log[i];
      if j == |s.log| { assert SpacedFrom(s, id, s.log[i]); assert Behind(s.log[i], row.retries, row.lastRetry); }
    }
    forall i | 0 <= i < |s'.log| ensures SpacedFrom(s', id, s'.log[i]) {
      if i < |s.log| { assert SpacedFrom(s, id, s.log[i]); }
    }
  }

  lemma FinishKeepsSpaced(s: State, outcome: Outcome, stored: bool, id: nat)
    requires Shape(s) && Spaced(s, id) && s.current.Some?
    ensures Spaced(Next(s, Finish(outcome, stored)), id)
  {
    var row := s.current.value;
    var s' := Next(s, Finish(outcome, stored));
    if row.retries > 0 { BackoffIsExponential(row.retries); }
    assert row.retries > 0 ==> Pow2(row.retries) == 2 * Pow2(row.retries - 1);
    hide Pow2, BackoffMinutes;
    forall i | 0 <= i < |s'.log| ensures SpacedFrom(s', id, s'.log[i]) {
      if i < |s.log| { assert s'.log[i] == s.log[i]; assert SpacedFrom(s, id, s.log[i]); }
    }
    forall i, j | 0 <= i < j < |s'.log| && About(s'.log[i], id) && About(s'.log[j], id)
      ensures Apart(s'.log[i], s'.log[j])
    {
      assert s'.log[i] == s.log[i];
    }
  }

  lemma UserKeepsSpaced(s: State, step: Step, id: nat)
    requires Shape(s) && Spaced(s, id) && (step.Enqueue? || step.Edit? || step.Cancel?)
    ensures Spaced(Next(s, step), id)
  {
    hide Behind, Apart;
    var s' := Next(s, step);
    forall i | 0 <= i < |s'.log| ensures SpacedFrom(s', id, s'.log[i]) {
      if i < |s.log| { assert s'.log[i] == s.log[i]; assert SpacedFrom(s, id, s.log[i]); }
    }
  }

  lemma StepKeepsSpaced(s: State, step: Step, id: nat)
    requires Shape(s) && Allowed(s, step) && Spaced(s, id)
    ensures Spaced(Next(s, step), id)
  {
    match step
    case Start => if s.batch != [] && s.current.None? { StartKeepsSpaced(s, id); }
    case Finish(outcome, stored) => if s.current.Some? { FinishKeepsSpaced(s, outcome, stored, id); }
    case Enqueue(_, _, _) => UserKeepsSpaced(s, step, id);
    case Edit(_, _) => UserKeepsSpaced(s, step, id);
    case Cancel(_) => UserKeepsSpaced(s, step, id);
    case _ =>
      var s' := Next(s, step);
      forall i | 0 <= i < |s'.log| ensures SpacedFrom(s', id, s'.log[i]) {
        if i < |s.log| { assert s'.log[i] == s.log[i]; assert SpacedFrom(s, id, s.log[i]); }
      }
  }

  ghost predicate Inv(s: State) {
    Shape(s) && forall id: nat :: Counted(s, id) && Spaced(s, id)
  }

  lemma {:induction false} RunKeepsInv(s: State, steps: seq<Step>)
    requires Inv(s) && AllowedRun(s, steps)
    ensures Inv(Run(s, steps))
    decreases |steps|
  {
    if steps != [] {
      StepKeepsShape(s, steps[0]);
      forall id: nat ensures Counted(Next(s, steps[0]), id) && Spaced(Next(s, steps[0]), id) {
        StepKeepsCounted(s, steps[0], id);
        StepKeepsSpaced(s, steps[0], id);
      }
      RunKeepsInv(Next(s, steps[0]), steps[1..]);
    }
  }

  // ----- Main results: the retry bound ---------------------------------------------

  /**
   * In every run: the stored count stays in 0..9, a row is attempted at most ten
   * times plus once for every store write that was lost, the give-up notice comes
   * after the tenth attempt, and at most once without lost writes.
   */
  lemma AttemptsAreBounded(s0: State, steps: seq<Step>, id: nat)
    requires Initial(s0) && AllowedRun(s0, steps)
    ensures
      var s := Run(s0, steps);
      && (id in s.rows ==> s.rows[id].retries <= 9)
      && Attempts(s.log, id) <= 10 + Losses(s.log, id)
      && Notices(s.log, id) <= 1 + Losses(s.log, id)
      && (Notices(s.log, id) > 0 ==> Attempts(s.log, id) >= 10)
  {
    RunKeepsInv(s0, steps);
    assert Counted(Run(s0, steps), id);
  }

  /** When the tenth submission of a row fails, the row goes and exactly one notice is out. */
  lemma TenthFailureGivesUp(s0: State, steps: seq<Step>)
    requires Initial(s0) && AllowedRun(s0, steps)
    requires Run(s0, steps).current.Some?
    ensures
      var s := Run(s0, steps);
      var id := s.current.value.id;
      var s' := Next(s, Finish(Failed, true));
      Losses(s.log, id) == 0 ==>
        if Attempts(s.log, id) == 10 then id !in s'.rows && Notices(s'.log, id) == 1
        else Notices(s'.log, id) == 0 && (id in s.rows ==> id in s'.rows && s'.rows[id].retries == Attempts(s.log, id))
  {
    RunKeepsInv(s0, steps);
    TenthFailureStep(Run(s0, steps));
  }

  lemma TenthFailureStep(s: State)
    requires Inv(s) && s.current.Some?
    ensures
      var id := s.current.value.id;
      var s' := Next(s, Finish(Failed, true));
      Losses(s.log, id) == 0 ==>
        if Attempts(s.log, id) == 10 then id !in s'.rows && Notices(s'.log, id) == 1
        else Notices(s'.log, id) == 0 && (id in s.rows ==> id in s'.rows && s'.rows[id].retries == Attempts(s.log, id))
  {
    assert Counted(s, s.current.value.id);
    FinishCounts(s.log, s.current.value, Failed, true, s.now, s.current.value.id);
    hide Inv, Counted, Attempts, Losses, Notices;
  }

  /**
   * Between two attempts of a row lie all the backoffs between their counts:
   * 2^m - 2^k minutes from an attempt after k failures to one after m, so 511
   * minutes from the first to the tenth, and 2^(k-1) minutes from the k-th
   * failure to the attempt after it.
   */
  lemma BackoffIsKept(s0: State, steps: seq<Step>, i: nat, j: nat)
    requires Initial(s0) && AllowedRun(s0, steps)
    requires i < j < |Run(s0, steps).log| && Run(s0, steps).log[j].Attempt?
    ensures
      var early, late := Run(s0, steps).log[i], Run(s0, steps).log[j];
      && (early.Attempt? && early.id == late.id ==>
            && early.retries <= late.retries
            && (early.retries < late.retries ==> late.at > early.at + 60 * (Pow2(late.retries) - Pow2(early.retries)))
            && (early.retries == 0 && late.retries == 9 ==> late.at > early.at + 60 * 511))
      && (early.Failure? && early.id == late.id && early.retries == late.retries ==>
            late.retries >= 1 && late.at > early.at + 60 * Pow2(late.retries - 1))
  {
    RunKeepsInv(s0, steps);
    var s := Run(s0, steps);
    hide Run, AllowedRun;
    assert Spaced(s, s.log[j].id);
    if About(s.log[i], s.log[j].id) { assert Apart(s.log[i], s.log[j]); }
    PowersOfTwo();
    hide Pow2, Inv, Spaced;
  }

  lemma PowersOfTwo()
    ensures Pow2(0) == 1 && Pow2(9) == 512
  {
    assert Pow2(3) == 8;
    assert Pow2(6) == 2 * Pow2(5) == 4 * Pow2(4) == 8 * Pow2(3);
    assert Pow2(9) == 2 * Pow2(8) == 4 * Pow2(7) == 8 * Pow2(6);
  }

  // ----- Main results: the undo window -----------------------------------------------

  /** The worker's snapshot still holds this message. */
  predicate InSnapshot(s: State, event: string) {
    exists i :: 0 <= i < |s.batch| && s.batch[i].event == event
  }

  predicate InTable(s: State, event: string) {
    exists id :: id in s.rows && s.rows[id].event == event
  }

  ghost predicate AttemptedAfter(s: State, from: nat, event: string) {
    exists j :: from <= j < |s.log| && s.log[j].Attempt? && s.log[j].event == event
  }

  lemma {:induction false} RunNeverAttempts(s: State, steps: seq<Step>, event: string)
    requires event in s.used && !InTable(s, event) && !InSnapshot(s, event) && AllowedRun(s, steps)
    ensures !AttemptedAfter(Run(s, steps), |s.log|, event)
    ensures s.log <= Run(s, steps).log
    decreases |steps|
  {
    if steps != [] {
      var s' := Next(s, steps[0]);
      assert s.log <= s'.log && !AttemptedAfter(s', |s.log|, event);
      NextLeavesOut(s, steps[0], event);
      RunNeverAttempts(s', steps[1..], event);
      var s'' := Run(s', steps[1..]);
      forall j | |s.log| <= j < |s''.log| ensures !(s''.log[j].Attempt? && s''.log[j].event == event) {
        if j < |s'.log| { assert s''.log[j] == s'.log[j]; }
      }
    }
  }

  lemma NextLeavesOut(s: State, step: Step, event: string)
    requires event in s.used && !InTable(s, event) && !InSnapshot(s, event) && Allowed(s, step)
    ensures event in Next(s, step).used && !InTable(Next(s, step), event) && !InSnapshot(Next(s, step), event)
  {
    var s' := Next(s, step);
    assert forall id | id in s.rows :: s.rows[id].event != event;
    assert forall id | id in s'.rows :: s'.rows[id].event != event;
    if step.TakeSnapshot? && s.batch == [] && s.current.None? {
      forall i | 0 <= i < |s'.batch| ensures s'.batch[i].event != event {
        assert s.rows[step.taken[i].id] == step.taken[i];
      }
    }
  }

  lemma {:induction false} SnapshotCanBeSubmitted(s: State, k: nat)
    requires k < |s.batch|
    ensures exists more :: AllowedRun(s, more) && AttemptedAfter(Run(s, more), |s.log|, s.batch[k].event)
    decreases k
  {
    var event := s.batch[k].event;
    if s.current.Some? {
      var done := Finish(Delivered, true);
      var s1 := Next(s, done);
      SnapshotCanBeSubmittedIdle(s1, k);
      var more :| AllowedRun(s1, more) && AttemptedAfter(Run(s1, more), |s1.log|, event);
      assert ([done] + more)[1..] == more;
      assert AllowedRun(s, [done] + more) && Run(s, [done] + more) == Run(s1, more);
    } else {
      SnapshotCanBeSubmittedIdle(s, k);
    }
  }

  lemma {:induction false} SnapshotCanBeSubmittedIdle(s: State, k: nat)
    requires k < |s.batch| && s.current.None?
    ensures exists more :: AllowedRun(s, more) && AttemptedAfter(Run(s, more), |s.log|, s.batch[k].event)
    decreases k
  {
    var event := s.batch[k].event;
    var s1 := Next(s, Start);
    if k == 0 {
      assert s1.log[|s.log|].Attempt? && s1.log[|s.log|].event == event;
      assert AllowedRun(s, [Start]) && Run(s, [Start]) == Run(s1, []) == s1;
    } else {
      var done := Finish(Delivered, true);
      var s2 := Next(s1, done);
      SnapshotCanBeSubmittedIdle(s2, k - 1);
      var more :| AllowedRun(s2, more) && AttemptedAfter(Run(s2, more), |s2.log|, event);
      assert ([Start, done] + more)[1..] == [done] + more && ([done] + more)[1..] == more;
      assert Run(s1, [done] + more) == Run(s2, more) && AllowedRun(s1, [done] + more);
      assert AllowedRun(s, [Start, done] + more) && Run(s, [Start, done] + more) == Run(s2, more);
    }
  }

  /**
   * A cancelled message can still go out exactly when the worker had it in its
   * snapshot at that moment.
   */
  lemma CancelHoldsIffNotInSnapshot(s: State, event: string)
    requires event in s.used
    ensures
      var s' := Next(s, Cancel(event));
      (exists more :: AllowedRun(s', more) && AttemptedAfter(Run(s', more), |s'.log|, event)) <==> InSnapshot(s, event)
  {
    var s' := Next(s, Cancel(event));
    assert s'.batch == s.batch;
    if InSnapshot(s, event) {
      var i :| 0 <= i < |s.batch| && s.batch[i].event == event;
      SnapshotCanBeSubmitted(s', i);
    } else {
      forall more | AllowedRun(s', more) ensures !AttemptedAfter(Run(s', more), |s'.log|, event) {
        RunNeverAttempts(s', more, event);
      }
    }
  }

  /** No two messages share an event id, in the table or in the worker's hands. */
  ghost predicate OneRowPerEvent(s: State) {
    && (forall a, b | a in s.rows && b in s.rows && s.rows[a].event == s.rows[b].event :: a == b)
    && (forall a, i | a in s.rows && 0 <= i < |s.batch| && s.batch[i].event == s.rows[a].event :: s.batch[i].id == a)
  }

  lemma FewerRowsKeepOneRow(s: State, s': State)
    requires OneRowPerEvent(s)
    requires forall id | id in s'.rows :: id in s.rows && s'.rows[id].event == s.rows[id].event
    requires s'.batch == s.batch || s'.batch == [] || (s.batch != [] && s'.batch == s.batch[1..])
    ensures OneRowPerEvent(s')
  {
  }

  lemma StepKeepsOneRow(s: State, step: Step)
    requires Shape(s) && Allowed(s, step) && OneRowPerEvent(s)
    ensures OneRowPerEvent(Next(s, step))
  {
    if !step.Enqueue? && !step.TakeSnapshot? {
      FewerRowsKeepOneRow(s, Next(s, step));
    }
  }

  lemma {:induction false} RunKeepsOneRow(s: State, steps: seq<Step>)
    requires Shape(s) && AllowedRun(s, steps) && OneRowPerEvent(s)
    ensures Shape(Run(s, steps)) && OneRowPerEvent(Run(s, steps))
    decreases |steps|
  {
    if steps != [] {
      StepKeepsShape(s, steps[0]);
      StepKeepsOneRow(s, steps[0]);
      RunKeepsOneRow(Next(s, steps[0]), steps[1..]);
    }
  }

  /** A message still inside its hold or backoff is in no snapshot, so cancelling it always works. */
  lemma HeldMessageCanBeUndone(s0: State, steps: seq<Step>, id: nat, more: seq<Step>)
    requires Initial(s0) && AllowedRun(s0, steps)
    requires id in Run(s0, steps).rows && !Eligible(Run(s0, steps).rows[id], Run(s0, steps).now)
    requires AllowedRun(Next(Run(s0, steps), Cancel(Run(s0, steps).rows[id].event)), more)
    ensures
      var s := Run(s0, steps);
      var event := s.rows[id].event;
      !AttemptedAfter(Run(Next(s, Cancel(event)), more), |s.log|, event)
  {
    RunKeepsOneRow(s0, steps);
    var s := Run(s0, steps);
    var event := s.rows[id].event;
    assert !InSnapshot(s, event) by {
      forall i | 0 <= i < |s.batch| ensures s.batch[i].event != event {
        assert Taken(s, s.batch[i]);
      }
    }
    CancelHoldsIffNotInSnapshot(s, event);
    var s' := Next(s, Cancel(event));
    assert !AttemptedAfter(Run(s', more), |s'.log|, event);
    RunNeverAttempts(s', more, event);
    forall j | |s.log| <= j < |Run(s', more).log|
      ensures !(Run(s', more).log[j].Attempt? && Run(s', more).log[j].event == event)
    {
      if j == |s.log| { assert Run(s', more).log[j] == s'.log[j]; }
    }
  }

  // ----- Main results: the edit window -----------------------------------------------

  /** Every submission carried the body of the last edit before the snapshot that took it. */
  ghost predicate LogWorded(log: seq<Event>) {
    forall j | 0 <= j < |log| && log[j].Attempt? :: BodyAt(UpToSnapshot(log[..j]), log[j].event) == Some(log[j].body)
  }

  ghost predicate TableWorded(rows: Table, log: seq<Event>) {
    forall id | id in rows :: BodyAt(log, rows[id].event) == Some(rows[id].body)
  }

  ghost predicate BatchWorded(batch: seq<Row>, log: seq<Event>) {
    forall i | 0 <= i < |batch| :: BodyAt(UpToSnapshot(log), batch[i].event) == Some(batch[i].body)
  }

  ghost predicate Worded(s: State) {
    TableWorded(s.rows, s.log) && BatchWorded(s.batch, s.log) && LogWorded(s.log)
  }

  lemma {:induction false} LogGrows(log: seq<Event>, e: Event)
    requires LogWorded(log)
    requires e.Attempt? ==> BodyAt(UpToSnapshot(log), e.event) == Some(e.body)
    ensures LogWorded(log + [e])
  {
    forall j | 0 <= j < |log + [e]| && (log + [e])[j].Attempt?
      ensures BodyAt(UpToSnapshot((log + [e])[..j]), (log + [e])[j].event) == Some((log + [e])[j].body)
    {
      assert (log + [e])[..j] == log[..j];
      assert log[..|log|] == log;
    }
  }

  /** An event that is neither an enqueue, an edit nor a snapshot. */
  lemma PlainEventKeepsWords(rows: Table, batch: seq<Row>, log: seq<Event>, e: Event)
    requires !e.Enqueued? && !e.BodySet? && !e.Snapshot?
    requires TableWorded(rows, log) && BatchWorded(batch, log)
    ensures TableWorded(rows, log + [e]) && BatchWorded(batch, log + [e])
  {
    forall event { Appended(log, e, 0, event); }
  }

  lemma UserKeepsWorded(s: State, step: Step)
    requires Shape(s) && Worded(s) && (step.Enqueue? || step.Edit? || step.Cancel?)
    ensures Worded(Next(s, step))
  {
    var e := if step.Enqueue? then Enqueued(step.event, step.body)
      else if step.Edit? then BodySet(step.event, step.body) else Dropped(step.event);
    LogGrows(s.log, e);
    forall event { Appended(s.log, e, 0, event); }
  }

  lemma WorkerKeepsWorded(s: State, step: Step)
    requires Shape(s) && Worded(s) && Allowed(s, step) && (step.TakeSnapshot? || step.Start? || step.Restart?)
    ensures Worded(Next(s, step))
  {
    if step.TakeSnapshot? && s.batch == [] && s.current.None? {
      LogGrows(s.log, Snapshot);
      forall event { Appended(s.log, Snapshot, 0, event); }
      forall i | 0 <= i < |step.taken|
        ensures BodyAt(s.log + [Snapshot], step.taken[i].event) == Some(step.taken[i].body)
      {
        assert s.rows[step.taken[i].id] == step.taken[i];
      }
    } else if step.Start? && s.batch != [] && s.current.None? {
      var row := s.batch[0];
      var e := Attempt(row.id, row.event, row.body, row.retries, s.now);
      LogGrows(s.log, e);
      PlainEventKeepsWords(s.rows, s.batch, s.log, e);
    } else if step.Restart? && s.current.Some? {
      LogGrows(s.log, WriteLost(s.current.value.id));
      PlainEventKeepsWords(s.rows, [], s.log, WriteLost(s.current.value.id));
    }
  }

  lemma FinishKeepsWorded(s: State, outcome: Outcome, stored: bool)
    requires Shape(s) && Worded(s) && s.current.Some?
    ensures Worded(Next(s, Finish(outcome, stored)))
  {
    var row := s.current.value;
    var log := s.log;
    if outcome.Failed? && GivesUp(row) {
      LogGrows(log, GaveUp(row.id));
      PlainEventKeepsWords(s.rows, s.batch, log, GaveUp(row.id));
      log := log + [GaveUp(row.id)];
    }
    if !stored {
      LogGrows(log, WriteLost(row.id));
      PlainEventKeepsWords(s.rows, s.batch, log, WriteLost(row.id));
    } else if outcome.Failed? && !GivesUp(row) {
      LogGrows(log, Failure(row.id, row.retries + 1, s.now));
      PlainEventKeepsWords(s.rows, s.batch, log, Failure(row.id, row.retries + 1, s.now));
    }
  }

  lemma {:induction false} RunKeepsWorded(s: State, steps: seq<Step>)
    requires Shape(s) && Worded(s) && AllowedRun(s, steps)
    ensures Worded(Run(s, steps))
    decreases |steps|
  {
    if steps != [] {
      var step := steps[0];
      StepKeepsShape(s, step);
      if step.Enqueue? || step.Edit? || step.Cancel? { UserKeepsWorded(s, step); }
      else if step.Finish? { if s.current.Some? { FinishKeepsWorded(s, step.outcome, step.stored); } }
      else if !step.Tick? { WorkerKeepsWorded(s, step); }
      RunKeepsWorded(Next(s, step), steps[1..]);
    }
  }

  /** In every interleaving, what is submitted is the body of the last edit before the snapshot that took the row. */
  lemma SubmitsLastEditBeforeSnapshot(s0: State, steps: seq<Step>, j: nat)
    requires Initial(s0) && AllowedRun(s0, steps)
    requires j < |Run(s0, steps).log| && Run(s0, steps).log[j].Attempt?
    ensures
      var log := Run(s0, steps).log;
      BodyAt(UpToSnapshot(log[..j]), log[j].event) == Some(log[j].body)
  {
    RunKeepsWorded(s0, steps);
  }

  // ----- Main results: the queue drains ------------------------------------------------

  /** How many submissions are left in the table. */
  ghost function Budget(rows: Table): nat {
    if rows == map[] then 0 else
    var id :| id in rows;
    Left(rows[id]) + Budget(rows - {id})
  }

  /** No reachable count exceeds nine, so this is `10 - retry_count`. */
  function Left(row: Row): nat {
    if row.retries <= 9 then 10 - row.retries else 1
  }

  lemma {:induction false} BudgetOf(rows: Table, id: nat)
    requires id in rows
    ensures Budget(rows) == Left(rows[id]) + Budget(rows - {id})
    decreases |rows|
  {
    var x :| x in rows && Budget(rows) == Left(rows[x]) + Budget(rows - {x});
    if x != id {
      BudgetOf(rows - {x}, id);
      BudgetOf(rows - {id}, x);
      assert rows - {x} - {id} == rows - {id} - {x};
    }
  }

  lemma ResolvingSpends(rows: Table, row: Row, outcome: Outcome, now: nat)
    requires row.id in rows && rows[row.id].retries == row.retries < 10
    ensures Budget(Resolved(rows, row, outcome, now)) < Budget(rows)
  {
    var rows' := Resolved(rows, row, outcome, now);
    BudgetOf(rows, row.id);
    if row.id in rows' {
      BudgetOf(rows', row.id);
      assert rows' - {row.id} == rows - {row.id};
    }
  }

  /** Working through a snapshot costs the queue at least one submission per row. */
  lemma {:induction false} BatchSpends(rows: Table, batch: seq<Row>, outcomes: seq<Outcome>, now: nat)
    requires |batch| == |outcomes|
    requires forall i | 0 <= i < |batch| ::
      batch[i].id in rows && rows[batch[i].id].retries == batch[i].retries && batch[i].retries < 10
    requires forall i, j | 0 <= i < j < |batch| :: batch[i].id != batch[j].id
    ensures Budget(AllResolved(rows, batch, outcomes, now)) + |batch| <= Budget(rows)
    decreases |batch|
  {
    if batch != [] {
      ResolvingSpends(rows, batch[0], outcomes[0], now);
      BatchSpends(Resolved(rows, batch[0], outcomes[0], now), batch[1..], outcomes[1..], now);
    }
  }

  /** Every hold and every backoff in the table has passed. */
  ghost predicate AllDue(rows: Table, now: nat) {
    forall id | id in rows :: rows[id].retries < 10 && rows[id].releaseAt <= now && rows[id].lastRetry + 60 * 256 < now
  }

  datatype Round = Round(now: nat, batch: seq<Row>, outcomes: seq<Outcome>)

  /** Each round starts when all rows are due, takes any batch the query may return and works through it. */
  ghost predicate RoundsRun(rows: Table, rounds: seq<Round>)
    decreases |rounds|
  {
    rounds == [] ||
    (var r := rounds[0];
     && AllDue(rows, r.now) && IsBatch(rows, r.now, r.batch) && |r.outcomes| == |r.batch|
     && RoundsRun(AllResolved(rows, r.batch, r.outcomes, r.now), rounds[1..]))
  }

  ghost function AfterRounds(rows: Table, rounds: seq<Round>): Table
    requires RoundsRun(rows, rounds)
    decreases |rounds|
  {
    if rounds == [] then rows
    else AfterRounds(AllResolved(rows, rounds[0].batch, rounds[0].outcomes, rounds[0].now), rounds[1..])
  }

  /** Once every hold and backoff has passed, a non-empty table yields a non-empty batch, whatever LIMIT picks. */
  lemma DueTableYieldsBatch(rows: Table, now: nat, batch: seq<Row>)
    requires AllDue(rows, now) && IsBatch(rows, now, batch) && rows != map[]
    ensures batch != []
  {
    var id :| id in rows;
    assert BackoffMinutes(rows[id].retries) <= 256;
    assert Eligible(rows[id], now);
  }

  /** Rounds that wait until every row is due: no more of them than submissions left. */
  lemma {:induction false} DueRoundsDrain(rows: Table, rounds: seq<Round>)
    requires RoundsRun(rows, rounds) && |rounds| >= Budget(rows)
    ensures AfterRounds(rows, rounds) == map[]
    decreases |rounds|
  {
    if rounds != [] {
      var r := rounds[0];
      if rows != map[] { DueTableYieldsBatch(rows, r.now, r.batch); }
      BatchSpends(rows, r.batch, r.outcomes, r.now);
      DueRoundsDrain(AllResolved(rows, r.batch, r.outcomes, r.now), rounds[1..]);
    }
  }

  // ----- Main results: every run spends, and none is stuck ---------------------------------

  /** The step ends a submission of a row that is still there, and the table learns of it. */
  predicate Spends(s: State, step: Step) {
    step.Finish? && step.stored && s.current.Some? && s.current.value.id in s.rows
  }

  function SpentIn(s: State, steps: seq<Step>): nat
    decreases |steps|
  {
    if steps == [] then 0 else (if Spends(s, steps[0]) then 1 else 0) + SpentIn(Next(s, steps[0]), steps[1..])
  }

  function EnqueuedIn(steps: seq<Step>): nat
    decreases |steps|
  {
    if steps == [] then 0 else (if steps[0].Enqueue? then 1 else 0) + EnqueuedIn(steps[1..])
  }

  /** How the submissions of a run end, in order. */
  function OutcomesOf(steps: seq<Step>): seq<Outcome>
    decreases |steps|
  {
    if steps == [] then [] else (if steps[0].Finish? then [steps[0].outcome] else []) + OutcomesOf(steps[1..])
  }

  /** Fewer rows, with no fewer failures, have no more submissions left. */
  lemma {:induction false} FewerRowsSpendLess(fewer: Table, rows: Table)
    requires forall id | id in fewer :: id in rows && Left(fewer[id]) <= Left(rows[id])
    ensures Budget(fewer) <= Budget(rows)
    decreases |rows|
  {
    if rows != map[] {
      var id :| id in rows;
      BudgetOf(rows, id);
      if id in fewer { BudgetOf(fewer, id); } else { assert fewer - {id} == fewer; }
      hide Budget;
      FewerRowsSpendLess(fewer - {id}, rows - {id});
    }
  }

  lemma FinishSpends(s: State, outcome: Outcome, stored: bool)
    requires Shape(s) && s.current.Some?
    ensures Budget(Next(s, Finish(outcome, stored)).rows) + (if Spends(s, Finish(outcome, stored)) then 1 else 0) <=
      Budget(s.rows)
  {
    var row := s.current.value;
    hide Budget;
    if stored && row.id in s.rows {
      ResolvingSpends(s.rows, row, outcome, s.now);
    } else {
      assert Resolved(s.rows, row, outcome, s.now) == s.rows || stored == false;
    }
  }

  lemma StepSpends(s: State, step: Step)
    requires Shape(s) && Allowed(s, step)
    ensures
      Budget(Next(s, step).rows) + (if Spends(s, step) then 1 else 0) <=
        Budget(s.rows) + (if step.Enqueue? then 10 else 0)
  {
    var rows' := Next(s, step).rows;
    hide Budget, Allowed;
    match step
    case Enqueue(_, _, _) =>
      if s.nextId in rows' {
        BudgetOf(rows', s.nextId);
        assert rows' - {s.nextId} == s.rows;
      }
    case Edit(_, _) => FewerRowsSpendLess(rows', s.rows);
    case Cancel(_) => FewerRowsSpendLess(rows', s.rows);
    case Finish(outcome, stored) => if s.current.Some? { FinishSpends(s, outcome, stored); }
    case _ =>
  }

  lemma {:induction false} RunSpends(s: State, steps: seq<Step>)
    requires Shape(s) && AllowedRun(s, steps)
    ensures Shape(Run(s, steps))
    ensures Budget(Run(s, steps).rows) + SpentIn(s, steps) <= Budget(s.rows) + 10 * EnqueuedIn(steps)
    decreases |steps|
  {
    if steps != [] {
      StepKeepsShape(s, steps[0]);
      StepSpends(s, steps[0]);
      hide Shape, Next, Budget, Spends;
      RunSpends(Next(s, steps[0]), steps[1..]);
    }
  }

  /**
   * From every reachable state and over every run, lost writes, cancels and restarts
   * included, submissions that reach the table use up what is left, ten for each
   * message enqueued meanwhile: with none enqueued, as many of them as were left
   * empty the queue.
   */
  lemma QueueDrains(s0: State, before: seq<Step>, steps: seq<Step>)
    requires Initial(s0) && AllowedRun(s0, before) && AllowedRun(Run(s0, before), steps)
    ensures
      var s := Run(s0, before);
      var s' := Run(s, steps);
      && SpentIn(s, steps) <= Budget(s.rows) + 10 * EnqueuedIn(steps)
      && (EnqueuedIn(steps) == 0 && SpentIn(s, steps) == Budget(s.rows) ==> s'.rows == map[])
  {
    RunSpends(s0, before);
    var s := Run(s0, before);
    RunSpends(s, steps);
    EmptyWhenSpent(Run(s, steps).rows);
  }

  lemma EmptyWhenSpent(rows: Table)
    ensures Budget(rows) == 0 <==> rows == map[]
  {
    if rows != map[] {
      var id :| id in rows;
      BudgetOf(rows, id);
    }
  }

  /** What the query may return always exists. */
  lemma {:induction false} SomeBatch(rows: Table, now: nat, ids: set<nat>, limit: nat) returns (batch: seq<Row>)
    requires ids <= rows.Keys && forall id | id in rows :: rows[id].id == id
    ensures |batch| <= limit
    ensures forall i | 0 <= i < |batch| ::
      batch[i].id in ids && rows[batch[i].id] == batch[i] && Eligible(batch[i], now)
    ensures forall i, j | 0 <= i < j < |batch| :: batch[i].id != batch[j].id
    ensures |batch| < limit ==> forall id | id in ids && Eligible(rows[id], now) :: rows[id] in batch
    decreases |ids|
  {
    hide Eligible;
    batch := [];
    if ids != {} && limit > 0 {
      var id :| id in ids;
      if Eligible(rows[id], now) {
        var rest := SomeBatch(rows, now, ids - {id}, limit - 1);
        batch := [rows[id]] + rest;
      } else {
        batch := SomeBatch(rows, now, ids - {id}, limit);
      }
    }
  }

  /** When this row is surely due. */
  function DueAt(row: Row): nat {
    row.releaseAt + row.lastRetry + 60 * 256 + 1
  }

  /** One submission, however it ends, is always possible while the table has rows. */
  lemma OneMoreSubmission(s: State, outcome: Outcome) returns (steps: seq<Step>)
    requires Shape(s) && s.rows != map[]
    ensures AllowedRun(s, steps) && EnqueuedIn(steps) == 0 && SpentIn(s, steps) == 1 && OutcomesOf(steps) == [outcome]
  {
    var id :| id in s.rows;
    var s1 := Next(s, Restart);
    var s2 := Next(s1, Tick(DueAt(s.rows[id])));
    StepKeepsShape(s, Restart);
    StepKeepsShape(s1, Tick(DueAt(s.rows[id])));
    assert BackoffMinutes(s.rows[id].retries) <= 256;
    assert Eligible(s2.rows[id], s2.now);
    var batch := SomeBatch(s2.rows, s2.now, s2.rows.Keys, 10);
    assert batch != [] && IsBatch(s2.rows, s2.now, batch);
    hide Shape, IsBatch, Eligible;
    steps := [Restart, Tick(DueAt(s.rows[id])), TakeSnapshot(batch), Start, Finish(outcome, true)];
    var s3 := Next(s2, TakeSnapshot(batch));
    var s4 := Next(s3, Start);
    assert s4.current == Some(batch[0]) && s4.rows == s.rows;
    FiveSteps(s, steps);
  }

  lemma FiveSteps(s: State, steps: seq<Step>)
    requires |steps| == 5
    ensures
      var s1 := Next(s, steps[0]);
      var s2 := Next(s1, steps[1]);
      var s3 := Next(s2, steps[2]);
      var s4 := Next(s3, steps[3]);
      && (AllowedRun(s, steps) <==>
            Allowed(s, steps[0]) && Allowed(s1, steps[1]) && Allowed(s2, steps[2]) && Allowed(s3, steps[3]) &&
              Allowed(s4, steps[4]))
      && SpentIn(s, steps) ==
           (if Spends(s, steps[0]) then 1 else 0) + (if Spends(s1, steps[1]) then 1 else 0) +
             (if Spends(s2, steps[2]) then 1 else 0)
           + (if Spends(s3, steps[3]) then 1 else 0) + (if Spends(s4, steps[4]) then 1 else 0)
      && ((forall step | step in steps :: !step.Enqueue?) ==> EnqueuedIn(steps) == 0)
      && ((forall i | 0 <= i < 4 :: !steps[i].Finish?) && steps[4].Finish? ==> OutcomesOf(steps) == [steps[4].outcome])
  {
    hide Next, Allowed, Spends, AllowedRun, SpentIn, EnqueuedIn, OutcomesOf;
    var s1 := Next(s, steps[0]);
    var s2 := Next(s1, steps[1]);
    var s3 := Next(s2, steps[2]);
    var s4 := Next(s3, steps[3]);
    assert steps[0..] == steps && steps[5..] == [];
    FirstStep(s, steps, 0);
    FirstStep(s1, steps, 1);
    FirstStep(s2, steps, 2);
    FirstStep(s3, steps, 3);
    FirstStep(s4, steps, 4);
    NoSteps(Next(s4, steps[4]));
  }

  lemma NoSteps(s: State)
    ensures AllowedRun(s, []) && SpentIn(s, []) == 0 && EnqueuedIn([]) == 0 && OutcomesOf([]) == []
  {
  }

  lemma FirstStep(s: State, steps: seq<Step>, i: nat)
    requires i < |steps|
    ensures
      var s' := Next(s, steps[i]);
      && (AllowedRun(s, steps[i..]) <==> Allowed(s, steps[i]) && AllowedRun(s', steps[i + 1..]))
      && SpentIn(s, steps[i..]) == (if Spends(s, steps[i]) then 1 else 0) + SpentIn(s', steps[i + 1..])
      && EnqueuedIn(steps[i..]) == (if steps[i].Enqueue? then 1 else 0) + EnqueuedIn(steps[i + 1..])
      && OutcomesOf(steps[i..]) == (if steps[i].Finish? then [steps[i].outcome] else []) + OutcomesOf(steps[i + 1..])
  {
    assert steps[i..][0] == steps[i] && steps[i..][1..] == steps[i + 1..];
  }

  lemma {:induction false} RunsConcat(s: State, xs: seq<Step>, ys: seq<Step>)
    ensures Run(s, xs + ys) == Run(Run(s, xs), ys)
    ensures AllowedRun(s, xs + ys) <==> AllowedRun(s, xs) && AllowedRun(Run(s, xs), ys)
    ensures EnqueuedIn(xs + ys) == EnqueuedIn(xs) + EnqueuedIn(ys)
    decreases |xs|
  {
    hide Next, Allowed;
    if xs == [] {
      assert xs + ys == ys;
    } else {
      assert (xs + ys)[0] == xs[0] && (xs + ys)[1..] == xs[1..] + ys;
      RunsConcat(Next(s, xs[0]), xs[1..], ys);
    }
  }

  lemma {:induction false} OutcomesConcat(xs: seq<Step>, ys: seq<Step>)
    ensures OutcomesOf(xs + ys) == OutcomesOf(xs) + OutcomesOf(ys)
    decreases |xs|
  {
    if xs == [] {
      assert xs + ys == ys;
    } else {
      assert (xs + ys)[0] == xs[0] && (xs + ys)[1..] == xs[1..] + ys;
      OutcomesConcat(xs[1..], ys);
    }
  }

  /** No state is stuck: however the mail server ends one submission after the other, a run empties the table. */
  lemma {:induction false} CanAlwaysDrain(s: State, outcomes: seq<Outcome>) returns (steps: seq<Step>)
    requires Shape(s) && |outcomes| >= Budget(s.rows)
    ensures AllowedRun(s, steps) && EnqueuedIn(steps) == 0 && OutcomesOf(steps) <= outcomes
    ensures Run(s, steps).rows == map[]
    decreases |outcomes|
  {
    EmptyWhenSpent(s.rows);
    hide Shape, Next, Budget, Allowed;
    if s.rows == map[] {
      steps := [];
    } else {
      var first := OneMoreSubmission(s, outcomes[0]);
      RunSpends(s, first);
      var rest := CanAlwaysDrain(Run(s, first), outcomes[1..]);
      RunsConcat(s, first, rest);
      OutcomesConcat(first, rest);
      steps := first + rest;
      assert outcomes == [outcomes[0]] + outcomes[1..];
    }
  }
}
