/**
 * Mail ingest: the bootstrap page, the positional backfill walk and the
 * token-driven `Email/changes` loop, as two concurrent tasks over one mailbox
 * (src/sync/email.rs, src/sync/backfill.rs).
 *
 * The server is the ascending list of mails inside the backfill window (the
 * cutoff is pinned, so the list is one fixed filter) and a change log; a JMAP
 * state token is a position in that log. A step is one request, one store write
 * or one `process_email`. A crash drops everything but the stored rows.
 */
module Ingest {
  import opened Wrappers

  type Id = string

  datatype Change = Created(id: Id) | Updated(id: Id) | Destroyed(id: Id)

  /** The stored `changes` token; `base` remembers where the bootstrap behind it read its state. */
  datatype Token = Token(at: nat, base: nat)

  /** Where `sync_emails` stands. */
  datatype Poller =
    | Resting
    | AskingChanges(token: Token)
    | Querying
    | Registering(page: seq<Id>)
    | ReadingState(page: seq<Id>)
    | Paging(todo: seq<Id>, token: Token, more: bool)

  /** Where `run_backfill_loop` stands. */
  datatype Walker =
    | Waiting
    | AskingBatch(from: nat)
    | Batching(from: nat, todo: seq<Id>, next: nat, last: bool, known: nat)
    | Stopped

  datatype State = State(
    list: seq<Id>,             // server: mails in the window, oldest first
    log: seq<Change>,          // server: every change so far
    born: map<Id, nat>,        // server: where in the log a mail was created
    changes: Option<Token>,    // jmap_state "changes"
    position: Option<nat>,     // jmap_state "backfill_position"
    mapped: set<Id>,           // message_mapping
    gone: set<Id>,             // destroyed_emails
    poller: Poller,
    walker: Walker,
    handled: map<Id, nat>,     // history: mails given to `process_email`, with data at least this new
    posts: seq<Id>)            // history: mails posted to Matrix, in order

  /** What `process_email` did with a mail: it may fail, skip the user's own mail, or never get it from the server. */
  datatype Outcome = Bridged | NotBridged | OwnMail | NotFound

  datatype Step =
    | Insert(id: Id, at: nat)
    | Update(id: Id)
    | Destroy(index: nat)
    | StartPoll
    | ChangesReply(upto: nat, reported: seq<Id>, recorded: set<Id>, more: bool)
    | CannotCalculate
    | QueryReply
    | SavePosition(stored: bool)
    | StateReply
    | PollNext(outcome: Outcome)
    | FinishPage
    | PollFails
    | StartBatch
    | PositionUnread      // the read of the position fails and counts as none
    | BatchReply
    | BatchNext(outcome: Outcome)
    | FinishBatch
    | EndKeepsPosition    // the walk ends, but its position is not deleted
    | BatchFails
    | Crash

  function Min(a: nat, b: nat): nat { if a < b then a else b }

  function Max(a: nat, b: nat): nat { if a < b then b else a }

  function From(list: seq<Id>, k: nat): seq<Id> { if k <= |list| then list[k..] else [] }

  /** The server reports every mail the log touches after the token, unless it is gone again. */
  predicate FaithfulReply(list: seq<Id>, log: seq<Change>, token: Token, upto: nat, reported: seq<Id>,
                          recorded: set<Id>)
  {
    && token.at <= upto <= |log|
    && (forall k | token.at <= k < upto :: log[k].id in reported || log[k].id !in list)
    && (forall id | id in recorded :: Destroyed(id) in log[token.at..upto])
  }

  /** `process_email`: skip what is mapped or recorded destroyed, otherwise try to bridge it. */
  function Process(s: State, id: Id, data: nat, outcome: Outcome): State {
    if outcome.NotFound? && id !in s.list then s else
    var newest := if id in s.handled then Max(s.handled[id], data) else data;
    var h := s.(handled := s.handled[id := newest]);
    if outcome.Bridged? && id !in s.mapped && id !in s.gone
    then h.(posts := s.posts + [id], mapped := s.mapped + {id})
    else h
  }

  function Server(s: State, step: Step): State
    requires step.Insert? || step.Update? || step.Destroy?
  {
    match step
    case Insert(id, at) =>
      if id in s.born || at > |s.list| then s
      else s.(list := s.list[..at] + [id] + s.list[at..], log := s.log + [Created(id)], born := s.born[id := |s.log|])
    case Update(id) =>
      if id in s.list then s.(log := s.log + [Updated(id)]) else s
    case Destroy(i) =>
      // a mail is listed once, so deleting it leaves no second copy behind
      if i < |s.list| && s.list[i] !in s.list[..i] + s.list[i + 1..]
      then s.(list := s.list[..i] + s.list[i + 1..], log := s.log + [Destroyed(s.list[i])])
      else s
  }

  /** One step of `sync_emails`. */
  function Poll(s: State, limit: nat, step: Step): State {
    match (step, s.poller)
    case (StartPoll, Resting) =>
      s.(poller := if s.changes.Some? then AskingChanges(s.changes.value) else Querying)
    case (ChangesReply(upto, reported, recorded, more), AskingChanges(token)) =>
      if FaithfulReply(s.list, s.log, token, upto, reported, recorded)
      then s.(gone := s.gone + recorded, poller := Paging(reported, token.(at := upto), more))
      else s
    case (CannotCalculate, AskingChanges(_)) =>
      s.(changes := None, poller := Querying)
    case (QueryReply, Querying) =>
      s.(poller := Registering(s.list[..Min(limit, |s.list|)]))
    case (SavePosition(stored), Registering(page)) =>
      s.(position := if |page| == limit && stored then Some(limit) else s.position, poller := ReadingState(page))
    case (StateReply, ReadingState(page)) =>
      s.(poller := Paging(page, Token(|s.log|, |s.log|), false))
    case (PollNext(outcome), Paging(todo, token, more)) =>
      if todo == [] then s
      else Process(s, todo[0], token.at, outcome).(poller := Paging(todo[1..], token, more))
    case (FinishPage, Paging(todo, token, more)) =>
      if todo != [] then s
      else if more then s.(poller := AskingChanges(token))
      else s.(changes := Some(token), poller := Resting)
    case (PollFails, _) => s.(poller := Resting)
    case _ => s
  }

  /** One step of `run_backfill_loop` and `backfill_batch`. */
  function Walk(s: State, limit: nat, step: Step): State {
    match (step, s.walker)
    case (StartBatch, Waiting) =>
      if s.position.Some? then s.(walker := AskingBatch(s.position.value))
      else if s.changes.Some? then s.(walker := Stopped)
      else s
    case (PositionUnread, Waiting) =>
      if s.changes.Some? then s.(walker := Stopped) else s
    case (BatchReply, AskingBatch(p)) =>
      var rest := From(s.list, p);
      var ids := rest[..Min(limit, |rest|)];
      s.(walker := Batching(p, ids, p + |ids|, |ids| < limit || ids == [], |s.log|))
    case (BatchNext(outcome), Batching(p, todo, next, last, known)) =>
      if todo == [] then s
      else Process(s, todo[0], known, outcome).(walker := Batching(p, todo[1..], next, last, known))
    case (FinishBatch, Batching(p, todo, next, last, known)) =>
      if todo != [] then s
      else if last then s.(position := None, walker := Stopped)
      else s.(position := Some(next), walker := Waiting)
    case (EndKeepsPosition, Batching(p, todo, next, last, known)) =>
      if todo == [] && last then s.(walker := Stopped) else s
    case (BatchFails, AskingBatch(_)) => s.(walker := Waiting)
    case (BatchFails, Batching(_, _, _, _, _)) => s.(walker := Waiting)
    case _ => s
  }

  function Next(s: State, limit: nat, step: Step): State {
    match step
    case Insert(_, _) => Server(s, step)
    case Update(_) => Server(s, step)
    case Destroy(_) => Server(s, step)
    case StartBatch => Walk(s, limit, step)
    case PositionUnread => Walk(s, limit, step)
    case EndKeepsPosition => Walk(s, limit, step)
    case BatchReply => Walk(s, limit, step)
    case BatchNext(_) => Walk(s, limit, step)
    case FinishBatch => Walk(s, limit, step)
    case BatchFails => Walk(s, limit, step)
    case Crash => s.(poller := Resting, walker := Waiting)
    case _ => Poll(s, limit, step)
  }

  function Run(s: State, limit: nat, steps: seq<Step>): State
    decreases |steps|
  {
    if steps == [] then s else Run(Next(s, limit, steps[0]), limit, steps[1..])
  }

  /** A mailbox the bridge has never seen, with any history of its own. */
  ghost predicate Fresh(s: State) {
    && WellFormed(s)
    && s.changes.None? && s.position.None?
    && s.mapped == {} && s.gone == {} && s.posts == [] && s.handled == map[]
    && s.poller.Resting? && s.walker.Waiting?
  }

  ghost predicate WellFormed(s: State) {
    && (forall id | id in s.list :: id in s.born)
    && Dated(s.log, s.born)
  }

  ghost predicate Dated(log: seq<Change>, born: map<Id, nat>) {
    && (forall id | id in born :: born[id] < |log| && log[born[id]] == Created(id))
    && (forall k | 0 <= k < |log| :: log[k].id in born)
  }

  lemma FromAfterInsert(list: seq<Id>, at: nat, id: Id, k: nat)
    requires at <= |list|
    ensures
      var list' := list[..at] + [id] + list[at..];
      && (forall x | x in From(list, k) :: x in From(list', k))
      && (at >= k ==> id in From(list', k))
      && (forall x :: x in list' <==> x in list || x == id)
  {
    var list' := list[..at] + [id] + list[at..];
    assert list'[at] == id;
    forall x | x in From(list, k) ensures x in From(list', k) {
      var j :| k <= j < |list| && list[j] == x;
      if j < at { assert list'[j] == x; } else { assert list'[j + 1] == x; }
    }
    forall x | x in list ensures x in list' {
      var j :| 0 <= j < |list| && list[j] == x;
      if j < at { assert list'[j] == x; } else { assert list'[j + 1] == x; }
    }
  }

  lemma FromAfterDestroy(list: seq<Id>, i: nat, k: nat)
    requires i < |list| && list[i] !in list[..i] + list[i + 1..]
    ensures
      var list' := list[..i] + list[i + 1..];
      && (forall x | x in list' :: x in list)
      && (i >= k ==> forall x | x in From(list, k) && x in list' :: x in From(list', k))
  {
    var list' := list[..i] + list[i + 1..];
    if i >= k {
      forall x | x in From(list, k) && x in list' ensures x in From(list', k) {
        var j :| k <= j < |list| && list[j] == x;
        if j < i { assert list'[j] == x; } else { assert list'[j - 1] == x; }
      }
    }
  }

  /** What a server-side change leaves alone. */
  ghost predicate ServerMoved(s: State, s': State) {
    && s' == s.(list := s'.list, log := s'.log, born := s'.born)
    && s.log <= s'.log
    && (forall id | id in s.born :: id in s'.born && s'.born[id] == s.born[id])
    && (forall id | id in s'.list :: id in s.list || (id !in s.born && id in s'.born && s'.born[id] == |s.log|))
  }

  lemma ServerMoves(s: State, step: Step)
    requires WellFormed(s) && (step.Insert? || step.Update? || step.Destroy?)
    ensures ServerMoved(s, Server(s, step)) && WellFormed(Server(s, step))
  {
    match step
    case Insert(id, at) => if at <= |s.list| { FromAfterInsert(s.list, at, id, 0); }
    case Destroy(i) =>
    case Update(_) =>
  }

  // ----- Token safety: every run, nothing excluded ------------------------------

  /** Every change between the bootstrap and `upto` has reached `process_email`, or will from `todo`. */
  ghost predicate Attempted(list: seq<Id>, log: seq<Change>, handled: map<Id, nat>, token: Token, todo: seq<Id>) {
    && token.base <= token.at <= |log|
    && (forall k | token.base <= k < token.at && log[k].id in list ::
          log[k].id in todo || (log[k].id in handled && handled[log[k].id] > k))
  }

  ghost predicate StoredAttempted(s: State) {
    s.changes.Some? ==> Attempted(s.list, s.log, s.handled, s.changes.value, [])
  }

  ghost predicate PollerAttempted(s: State) {
    match s.poller
    case AskingChanges(token) => Attempted(s.list, s.log, s.handled, token, [])
    case Paging(todo, token, _) => Attempted(s.list, s.log, s.handled, token, todo)
    case _ => true
  }

  ghost predicate TokenInv(s: State) {
    WellFormed(s) && StoredAttempted(s) && PollerAttempted(s)
  }

  lemma ServerKeepsAttempted(s: State, s': State, token: Token, todo: seq<Id>)
    requires WellFormed(s) && ServerMoved(s, s') && Attempted(s.list, s.log, s.handled, token, todo)
    ensures Attempted(s'.list, s'.log, s'.handled, token, todo)
  {
    forall k | token.base <= k < token.at && s'.log[k].id in s'.list
      ensures s'.log[k].id in todo || (s'.log[k].id in s'.handled && s'.handled[s'.log[k].id] > k)
    {
      assert s'.log[k] == s.log[k];
    }
  }

  lemma ServerKeepsTokenInv(s: State, step: Step)
    requires TokenInv(s) && (step.Insert? || step.Update? || step.Destroy?)
    ensures TokenInv(Server(s, step))
  {
    var s' := Server(s, step);
    ServerMoves(s, step);
    if s.changes.Some? { ServerKeepsAttempted(s, s', s.changes.value, []); }
    match s.poller
    case AskingChanges(token) => ServerKeepsAttempted(s, s', token, []);
    case Paging(todo, token, _) => ServerKeepsAttempted(s, s', token, todo);
    case _ =>
  }

  /** `process_email` only ever adds to what was handled. */
  lemma ProcessKeepsAttempted(s: State, id: Id, data: nat, outcome: Outcome, token: Token, todo: seq<Id>)
    requires Attempted(s.list, s.log, s.handled, token, todo)
    ensures Attempted(s.list, s.log, Process(s, id, data, outcome).handled, token, todo)
  {
  }

  lemma ProcessAttempts(s: State, todo: seq<Id>, outcome: Outcome, token: Token)
    requires todo != [] && Attempted(s.list, s.log, s.handled, token, todo)
    ensures Attempted(s.list, s.log, Process(s, todo[0], token.at, outcome).handled, token, todo[1..])
  {
    assert todo == [todo[0]] + todo[1..];
  }

  lemma ProcessFrame(s: State, id: Id, data: nat, outcome: Outcome)
    ensures
      var s' := Process(s, id, data, outcome);
      s' == s.(handled := s'.handled, posts := s'.posts, mapped := s'.mapped)
  {
  }

  lemma PollKeepsTokenInv(s: State, limit: nat, step: Step)
    requires TokenInv(s)
    ensures TokenInv(Poll(s, limit, step))
  {
    if step.PollNext? && s.poller.Paging? && s.poller.todo != [] {
      ProcessFrame(s, s.poller.todo[0], s.poller.token.at, step.outcome);
      ProcessAttempts(s, s.poller.todo, step.outcome, s.poller.token);
      if s.changes.Some? {
        ProcessKeepsAttempted(s, s.poller.todo[0], s.poller.token.at, step.outcome, s.changes.value, []);
      }
    } else if step.ChangesReply? && s.poller.AskingChanges? {
      ReplyAttempts(s, s.poller.token, step.upto, step.reported, step.recorded);
    }
  }

  lemma ReplyAttempts(s: State, token: Token, upto: nat, reported: seq<Id>, recorded: set<Id>)
    requires Attempted(s.list, s.log, s.handled, token, [])
    ensures FaithfulReply(s.list, s.log, token, upto, reported, recorded) ==>
      Attempted(s.list, s.log, s.handled, token.(at := upto), reported)
  {
  }

  lemma WalkKeepsTokenInv(s: State, limit: nat, step: Step)
    requires TokenInv(s)
    ensures TokenInv(Walk(s, limit, step))
  {
    if step.BatchNext? && s.walker.Batching? && s.walker.todo != [] {
      var id, data := s.walker.todo[0], s.walker.known;
      ProcessFrame(s, id, data, step.outcome);
      if s.changes.Some? { ProcessKeepsAttempted(s, id, data, step.outcome, s.changes.value, []); }
      match s.poller
      case AskingChanges(token) => ProcessKeepsAttempted(s, id, data, step.outcome, token, []);
      case Paging(todo, token, _) => ProcessKeepsAttempted(s, id, data, step.outcome, token, todo);
      case _ =>
    }
  }

  lemma StepKeepsTokenInv(s: State, limit: nat, step: Step)
    requires TokenInv(s)
    ensures TokenInv(Next(s, limit, step))
  {
    match step
    case Insert(_, _) => ServerKeepsTokenInv(s, step);
    case Update(_) => ServerKeepsTokenInv(s, step);
    case Destroy(_) => ServerKeepsTokenInv(s, step);
    case StartBatch => WalkKeepsTokenInv(s, limit, step);
    case BatchReply => WalkKeepsTokenInv(s, limit, step);
    case BatchNext(_) => WalkKeepsTokenInv(s, limit, step);
    case FinishBatch => WalkKeepsTokenInv(s, limit, step);
    case BatchFails => WalkKeepsTokenInv(s, limit, step);
    case Crash =>
    case _ => PollKeepsTokenInv(s, limit, step);
  }

  lemma {:induction false} RunKeepsTokenInv(s: State, limit: nat, steps: seq<Step>)
    requires TokenInv(s)
    ensures TokenInv(Run(s, limit, steps))
    decreases |steps|
  {
    if steps != [] {
      StepKeepsTokenInv(s, limit, steps[0]);
      RunKeepsTokenInv(Next(s, limit, steps[0]), limit, steps[1..]);
    }
  }

  /**
   * Over every run of pages, failures, crashes, `cannotCalculateChanges` resets,
   * arrivals, updates and deletions: a change the stored token has passed since
   * its bootstrap was handed to `process_email` with data newer than the change,
   * or its mail is gone.
   */
  lemma ChangesTokenIsSafe(s: State, limit: nat, steps: seq<Step>, k: nat)
    requires Fresh(s)
    ensures
      var s' := Run(s, limit, steps);
      s'.changes.Some? && s'.changes.value.base <= k < s'.changes.value.at ==>
        k < |s'.log| &&
        (s'.log[k].id in s'.list ==> s'.log[k].id in s'.handled && s'.handled[s'.log[k].id] > k)
  {
    RunKeepsTokenInv(s, limit, steps);
  }

  // ----- Backfill coverage -------------------------------------------------------

  /**
   * The first list index the walk has yet to ask for, beyond the batch in hand.
   * A walk that has ended asks for nothing, whatever position is stored, until a
   * restart spawns another.
   */
  function Frontier(position: Option<nat>, walker: Walker): Option<nat> {
    match walker
    case Waiting => position
    case AskingBatch(p) => Some(p)
    case Batching(_, _, next, last, _) => if last then None else Some(next)
    case Stopped => None
  }

  /** The walk will still come to this mail. */
  ghost predicate Ahead(list: seq<Id>, position: Option<nat>, walker: Walker, id: Id) {
    || (walker.Batching? && id in walker.todo)
    || (Frontier(position, walker).Some? && id in From(list, Frontier(position, walker).value))
  }

  ghost predicate WillReach(s: State, id: Id) {
    Ahead(s.list, s.position, s.walker, id)
  }

  /**
   * Every mail created before `token.at` was handled, is in `todo`, or is
   * older than the bootstrap and still ahead of the walk.
   */
  ghost predicate Covered(s: State, token: Token, todo: seq<Id>) {
    && token.base <= token.at <= |s.log|
    && (forall id | id in s.list && id in s.born && s.born[id] < token.at ::
          id in s.handled || id in todo || (s.born[id] < token.base && WillReach(s, id)))
  }

  ghost predicate WalkInv(list: seq<Id>, born: map<Id, nat>, position: Option<nat>, walker: Walker) {
    match walker
    case AskingBatch(p) => position == Some(p)
    case Batching(p, todo, next, last, _) =>
      && position == Some(p) && p <= next
      && (forall id | id in todo :: id in born && (id in list ==> id in From(list, p)))
    case Waiting => true
    case Stopped => true
  }

  ghost predicate StoredCovered(s: State) {
    s.changes.Some? ==> Covered(s, s.changes.value, [])
  }

  ghost predicate PollerCovered(s: State, limit: nat) {
    match s.poller
    case Resting => true
    case AskingChanges(token) => Covered(s, token, [])
    case Querying => s.changes.None?
    case Registering(page) =>
      && s.changes.None?
      && |page| <= limit
      && (forall id | id in s.list ::
            id in page || if |page| == limit then id in From(s.list, limit) else id in s.handled || WillReach(s, id))
    case ReadingState(page) =>
      && s.changes.None?
      && (forall id | id in s.list :: id in page || id in s.handled || WillReach(s, id))
    case Paging(todo, token, _) => Covered(s, token, todo)
  }

  ghost predicate CoverInv(s: State, limit: nat) {
    WellFormed(s) && WalkInv(s.list, s.born, s.position, s.walker) && StoredCovered(s) && PollerCovered(s, limit)
  }

  /** The walk has yet to ask for what lies at index `at`. */
  predicate IsAhead(s: State, at: nat) {
    Frontier(s.position, s.walker).Some? && Frontier(s.position, s.walker).value <= at
  }

  /**
   * The steps that keep the walk's positions honest. Anything goes except:
   * an arrival between the bootstrap's query and its state read, unless it lands
   * where the walk has yet to go; a deletion in front of the walk; a bootstrap with a
   * full page whose walk has ended or has a batch in flight, or whose position is
   * neither stored nor preceded by an older one; and a failing read of a stored
   * position once a token is stored.
   */
  predicate Orderly(s: State, limit: nat, step: Step) {
    match step
    case Insert(_, at) =>
      (match s.poller
       case Registering(page) => if |page| == limit then at >= limit else IsAhead(s, at)
       case ReadingState(_) => IsAhead(s, at)
       case _ => true)
    case Destroy(i) =>
      && (s.position.Some? ==> i >= s.position.value)
      && (Frontier(s.position, s.walker).Some? ==> i >= Frontier(s.position, s.walker).value)
      && (s.poller.Registering? && |s.poller.page| == limit ==> i >= limit)
    case SavePosition(stored) =>
      s.poller.Registering? && |s.poller.page| == limit ==>
        s.walker.Waiting? && (stored || (s.position.Some? && s.position.value <= limit))
    case PositionUnread =>
      s.walker.Waiting? && s.changes.Some? ==> s.position.None?
    case _ => true
  }

  predicate OrderlyRun(s: State, limit: nat, steps: seq<Step>)
    decreases |steps|
  {
    steps == [] || (Orderly(s, limit, steps[0]) && OrderlyRun(Next(s, limit, steps[0]), limit, steps[1..]))
  }

  // The server moves.

  lemma ServerKeepsFrom(s: State, step: Step, k: nat)
    requires step.Insert? || step.Update? || step.Destroy?
    ensures (step.Destroy? ==> step.index >= k) ==>
      forall id | id in From(s.list, k) && id in Server(s, step).list :: id in From(Server(s, step).list, k)
    ensures step.Insert? && step.at >= k ==>
      forall id | id in Server(s, step).list :: id in s.list || id in From(Server(s, step).list, k)
  {
    match step
    case Insert(id, at) => if at <= |s.list| { FromAfterInsert(s.list, at, id, k); }
    case Destroy(i) =>
      if i < |s.list| && s.list[i] !in s.list[..i] + s.list[i + 1..] { FromAfterDestroy(s.list, i, k); }
    case Update(_) =>
  }

  lemma ServerKeepsAhead(s: State, limit: nat, step: Step)
    requires step.Insert? || step.Update? || step.Destroy?
    requires WellFormed(s) && WalkInv(s.list, s.born, s.position, s.walker) && Orderly(s, limit, step)
    ensures WalkInv(Server(s, step).list, Server(s, step).born, s.position, s.walker)
    ensures forall id | id in s.list && id in Server(s, step).list && WillReach(s, id) :: WillReach(Server(s, step), id)
  {
    ServerMoves(s, step);
    if s.walker.Batching? { ServerKeepsFrom(s, step, s.walker.from); }
    var f := Frontier(s.position, s.walker);
    if f.Some? { ServerKeepsFrom(s, step, f.value); }
  }

  lemma ServerKeepsCovered(s: State, s': State, token: Token, todo: seq<Id>)
    requires WellFormed(s) && ServerMoved(s, s') && Covered(s, token, todo)
    requires forall id | id in s.list && id in s'.list && WillReach(s, id) :: WillReach(s', id)
    ensures Covered(s', token, todo)
  {
  }

  lemma ServerKeepsCoverInv(s: State, limit: nat, step: Step)
    requires step.Insert? || step.Update? || step.Destroy?
    requires CoverInv(s, limit) && Orderly(s, limit, step)
    ensures CoverInv(Server(s, step), limit)
  {
    var s' := Server(s, step);
    ServerMoves(s, step);
    ServerKeepsAhead(s, limit, step);
    if s.changes.Some? { ServerKeepsCovered(s, s', s.changes.value, []); }
    match s.poller
    case AskingChanges(token) => ServerKeepsCovered(s, s', token, []);
    case Paging(todo, token, _) => ServerKeepsCovered(s, s', token, todo);
    case Registering(_) =>
      ServerKeepsFrom(s, step, limit);
      if Frontier(s.position, s.walker).Some? { ServerKeepsFrom(s, step, Frontier(s.position, s.walker).value); }
    case ReadingState(_) =>
      if Frontier(s.position, s.walker).Some? { ServerKeepsFrom(s, step, Frontier(s.position, s.walker).value); }
    case _ =>
  }

  // The poller moves.

  /** Neither the mailbox nor the walk changed, and handled mails stayed handled. */
  lemma SameWalkKeepsCovered(s: State, s': State, token: Token, todo: seq<Id>)
    requires s'.list == s.list && s'.log == s.log && s'.born == s.born && s'.position == s.position
    requires s'.walker == s.walker
    requires s.handled.Keys <= s'.handled.Keys
    requires Covered(s, token, todo)
    ensures Covered(s', token, todo)
  {
  }

  lemma ReplyKeepsCovered(s: State, token: Token, upto: nat, reported: seq<Id>, recorded: set<Id>)
    requires WellFormed(s) && Covered(s, token, []) && FaithfulReply(s.list, s.log, token, upto, reported, recorded)
    ensures Covered(s, token.(at := upto), reported)
  {
    forall id | id in s.list && id in s.born && s.born[id] < upto
      ensures id in s.handled || id in reported || (s.born[id] < token.base && WillReach(s, id))
    {
      assert s.log[s.born[id]].id == id;
    }
  }

  lemma ProcessCovers(s: State, todo: seq<Id>, outcome: Outcome, token: Token)
    requires todo != [] && Covered(s, token, todo)
    ensures Covered(Process(s, todo[0], token.at, outcome), token, todo[1..])
  {
    assert todo == [todo[0]] + todo[1..];
  }

  lemma PageCovers(s: State, limit: nat)
    ensures
      var page := s.list[..Min(limit, |s.list|)];
      forall id | id in s.list :: id in page || (|page| == limit && id in From(s.list, limit))
  {
  }

  lemma PollNextKeepsCoverInv(s: State, limit: nat, outcome: Outcome)
    requires CoverInv(s, limit) && s.poller.Paging? && s.poller.todo != []
    ensures CoverInv(Poll(s, limit, PollNext(outcome)), limit)
  {
    var token, todo := s.poller.token, s.poller.todo;
    var h := Process(s, todo[0], token.at, outcome);
    var s' := Poll(s, limit, PollNext(outcome));
    ProcessFrame(s, todo[0], token.at, outcome);
    ProcessCovers(s, todo, outcome, token);
    SameWalkKeepsCovered(h, s', token, todo[1..]);
    if s.changes.Some? { SameWalkKeepsCovered(s, s', s.changes.value, []); }
  }

  lemma ReplyKeepsCoverInv(s: State, limit: nat, step: Step)
    requires CoverInv(s, limit) && s.poller.AskingChanges? && step.ChangesReply?
    ensures CoverInv(Poll(s, limit, step), limit)
  {
    var s' := Poll(s, limit, step);
    var token := s.poller.token;
    if FaithfulReply(s.list, s.log, token, step.upto, step.reported, step.recorded) {
      ReplyKeepsCovered(s, token, step.upto, step.reported, step.recorded);
      SameWalkKeepsCovered(s, s', token.(at := step.upto), step.reported);
      if s.changes.Some? { SameWalkKeepsCovered(s, s', s.changes.value, []); }
    }
  }

  lemma RegisterKeepsCoverInv(s: State, limit: nat, stored: bool)
    requires CoverInv(s, limit) && s.poller.Registering? && Orderly(s, limit, SavePosition(stored))
    ensures CoverInv(Poll(s, limit, SavePosition(stored)), limit)
  {
    var s' := Poll(s, limit, SavePosition(stored));
    if |s.poller.page| == limit {
      assert IsAhead(s', limit);
      FromShrinks(s.list, Frontier(s'.position, s'.walker).value, limit);
    }
  }

  lemma FromShrinks(list: seq<Id>, k: nat, m: nat)
    requires k <= m
    ensures forall id | id in From(list, m) :: id in From(list, k)
  {
    forall id | id in From(list, m) ensures id in From(list, k) {
      var j :| m <= j < |list| && list[j] == id;
      assert From(list, k)[j - k] == id;
    }
  }

  /** Steps of the poller that neither handle mail nor touch the walk. */
  lemma QuietPollKeepsCoverInv(s: State, limit: nat, step: Step)
    requires CoverInv(s, limit)
    requires step.StartPoll? || step.CannotCalculate? || step.QueryReply? || step.StateReply? || step.FinishPage? ||
      step.PollFails?
    ensures CoverInv(Poll(s, limit, step), limit)
  {
    hide Process, FaithfulReply, Dated, Max;
    var s' := Poll(s, limit, step);
    PageCovers(s, limit);
    if s.changes.Some? { SameWalkKeepsCovered(s, s', s.changes.value, []); }
    if s.poller.Paging? { SameWalkKeepsCovered(s, s', s.poller.token, s.poller.todo); }
  }

  lemma PollKeepsCoverInv(s: State, limit: nat, step: Step)
    requires CoverInv(s, limit) && Orderly(s, limit, step)
    ensures CoverInv(Poll(s, limit, step), limit)
  {
    match step
    case PollNext(outcome) => if s.poller.Paging? && s.poller.todo != [] { PollNextKeepsCoverInv(s, limit, outcome); }
    case ChangesReply(_, _, _, _) => if s.poller.AskingChanges? { ReplyKeepsCoverInv(s, limit, step); }
    case SavePosition(stored) => if s.poller.Registering? { RegisterKeepsCoverInv(s, limit, stored); }
    case StartPoll => QuietPollKeepsCoverInv(s, limit, step);
    case CannotCalculate => QuietPollKeepsCoverInv(s, limit, step);
    case QueryReply => QuietPollKeepsCoverInv(s, limit, step);
    case StateReply => QuietPollKeepsCoverInv(s, limit, step);
    case FinishPage => QuietPollKeepsCoverInv(s, limit, step);
    case PollFails => QuietPollKeepsCoverInv(s, limit, step);
    case _ => assert Poll(s, limit, step) == s;
  }

  // The walk moves.

  lemma FromSplits(list: seq<Id>, p: nat, n: nat)
    requires n <= |From(list, p)|
    ensures forall id | id in From(list, p) :: id in From(list, p)[..n] || id in From(list, p + n)
    ensures forall id | id in From(list, p)[..n] :: id in From(list, p)
  {
  }

  lemma WalkKeepsAhead(s: State, limit: nat, step: Step)
    requires limit > 0 && WellFormed(s) && WalkInv(s.list, s.born, s.position, s.walker) && Orderly(s, limit, step)
    ensures
      var s' := Walk(s, limit, step);
      && WalkInv(s'.list, s'.born, s'.position, s'.walker)
      && s' == s.(position := s'.position, walker := s'.walker, handled := s'.handled, posts := s'.posts,
         mapped := s'.mapped)
      && s.handled.Keys <= s'.handled.Keys
      && (forall id | id in s.list && WillReach(s, id) :: id in s'.handled || WillReach(s', id))
  {
    if step.BatchReply? && s.walker.AskingBatch? {
      var rest := From(s.list, s.walker.from);
      FromSplits(s.list, s.walker.from, Min(limit, |rest|));
    }
  }

  lemma WalkKeepsCovered(s: State, limit: nat, step: Step, token: Token, todo: seq<Id>)
    requires limit > 0 && WellFormed(s) && WalkInv(s.list, s.born, s.position, s.walker) && Covered(s, token, todo)
    requires Orderly(s, limit, step)
    ensures Covered(Walk(s, limit, step), token, todo)
  {
    WalkKeepsAhead(s, limit, step);
  }

  lemma WalkKeepsCoverInv(s: State, limit: nat, step: Step)
    requires limit > 0 && CoverInv(s, limit) && Orderly(s, limit, step)
    ensures CoverInv(Walk(s, limit, step), limit)
  {
    WalkKeepsAhead(s, limit, step);
    if s.changes.Some? { WalkKeepsCovered(s, limit, step, s.changes.value, []); }
    match s.poller
    case AskingChanges(token) => WalkKeepsCovered(s, limit, step, token, []);
    case Paging(todo, token, _) => WalkKeepsCovered(s, limit, step, token, todo);
    case _ =>
  }

  lemma CrashKeepsCoverInv(s: State, limit: nat)
    requires CoverInv(s, limit)
    ensures CoverInv(Next(s, limit, Crash), limit)
  {
    var s' := Next(s, limit, Crash);
    forall id | id in s.list && WillReach(s, id) ensures WillReach(s', id) {
    }
  }

  lemma StepKeepsCoverInv(s: State, limit: nat, step: Step)
    requires limit > 0 && CoverInv(s, limit) && Orderly(s, limit, step)
    ensures CoverInv(Next(s, limit, step), limit)
  {
    match step
    case Insert(_, _) => ServerKeepsCoverInv(s, limit, step);
    case Update(_) => ServerKeepsCoverInv(s, limit, step);
    case Destroy(_) => ServerKeepsCoverInv(s, limit, step);
    case StartBatch => WalkKeepsCoverInv(s, limit, step);
    case PositionUnread => WalkKeepsCoverInv(s, limit, step);
    case EndKeepsPosition => WalkKeepsCoverInv(s, limit, step);
    case BatchReply => WalkKeepsCoverInv(s, limit, step);
    case BatchNext(_) => WalkKeepsCoverInv(s, limit, step);
    case FinishBatch => WalkKeepsCoverInv(s, limit, step);
    case BatchFails => WalkKeepsCoverInv(s, limit, step);
    case Crash => CrashKeepsCoverInv(s, limit);
    case _ => PollKeepsCoverInv(s, limit, step);
  }

  lemma {:induction false} RunKeepsCoverInv(s: State, limit: nat, steps: seq<Step>)
    requires limit > 0 && CoverInv(s, limit) && OrderlyRun(s, limit, steps)
    ensures CoverInv(Run(s, limit, steps), limit)
    decreases |steps|
  {
    if steps != [] {
      StepKeepsCoverInv(s, limit, steps[0]);
      RunKeepsCoverInv(Next(s, limit, steps[0]), limit, steps[1..]);
    }
  }

  /** The bootstrap is through, no walk is on its way, and yet a mail it stands for was never handled. */
  predicate Missed(s: State, id: Id) {
    && s.changes.Some? && (s.position.None? || s.walker.Stopped?)
    && id in s.list && id in s.born && s.born[id] < s.changes.value.at
    && id !in s.handled
  }

  /**
   * Over every orderly run, with arrivals at any place, failures, crashes and
   * re-bootstraps between any two steps: once a token is stored and the walk has
   * ended, every mail in the window that the token stands for was handed to
   * `process_email`; until then each such mail was handled or is still ahead of
   * a walk that is on its way.
   */
  lemma EveryMailIsReached(s: State, limit: nat, steps: seq<Step>, id: Id)
    requires limit > 0 && Fresh(s) && OrderlyRun(s, limit, steps)
    ensures
      var s' := Run(s, limit, steps);
      && !Missed(s', id)
      && (s'.changes.Some? && id in s'.list && id in s'.born && s'.born[id] < s'.changes.value.at ==>
            id in s'.handled || WillReach(s', id))
  {
    RunKeepsCoverInv(s, limit, steps);
    var s' := Run(s, limit, steps);
    if s'.position.None? || s'.walker.Stopped? {
      assert !s'.walker.Batching?;
      assert !WillReach(s', id);
    }
  }

  // ----- Posting at most once ----------------------------------------------------

  ghost predicate PostInv(s: State) {
    && (forall id | id in s.posts :: id in s.mapped)
    && (forall i, j | 0 <= i < j < |s.posts| :: s.posts[i] != s.posts[j])
  }

  lemma StepPosts(s: State, limit: nat, step: Step)
    ensures
      var s' := Next(s, limit, step);
      && s.mapped <= s'.mapped && s.gone <= s'.gone
      && (|| s'.posts == s.posts
          || (exists x :: x !in s.mapped && x !in s.gone && x in s'.mapped && s'.posts == s.posts + [x]))
  {
    var s' := Next(s, limit, step);
    if step.PollNext? && s.poller.Paging? && s.poller.todo != [] {
      ProcessPosts(s, s.poller.todo[0], s.poller.token.at, step.outcome);
    } else if step.BatchNext? && s.walker.Batching? && s.walker.todo != [] {
      ProcessPosts(s, s.walker.todo[0], s.walker.known, step.outcome);
    }
  }

  lemma ProcessPosts(s: State, id: Id, data: nat, outcome: Outcome)
    ensures
      var s' := Process(s, id, data, outcome);
      && s.mapped <= s'.mapped && s.gone == s'.gone
      && (s'.posts == s.posts || (id !in s.mapped && id !in s.gone && id in s'.mapped && s'.posts == s.posts + [id]))
  {
  }

  lemma {:induction false} RunKeepsPostInv(s: State, limit: nat, steps: seq<Step>)
    requires PostInv(s)
    ensures PostInv(Run(s, limit, steps))
    decreases |steps|
  {
    if steps != [] {
      StepPosts(s, limit, steps[0]);
      RunKeepsPostInv(Next(s, limit, steps[0]), limit, steps[1..]);
    }
  }

  /** With each `process_email` uninterrupted, no run posts a mail twice. */
  lemma PostsAtMostOnce(s: State, limit: nat, steps: seq<Step>, i: nat, j: nat)
    requires Fresh(s)
    ensures
      var posts := Run(s, limit, steps).posts;
      i < j < |posts| ==> posts[i] != posts[j]
  {
    RunKeepsPostInv(s, limit, steps);
  }

  /** A mail already mapped, or recorded as destroyed, is never posted again. */
  lemma {:induction false} NeverPostsKnownMail(s: State, limit: nat, steps: seq<Step>, id: Id)
    requires id in s.mapped || id in s.gone
    ensures
      var s' := Run(s, limit, steps);
      s.posts <= s'.posts && id !in s'.posts[|s.posts|..]
    decreases |steps|
  {
    if steps != [] {
      StepPosts(s, limit, steps[0]);
      NeverPostsKnownMail(Next(s, limit, steps[0]), limit, steps[1..], id);
    }
  }

  // ----- Exactly when the exceptions lose mail ---------------------------------------

  ghost predicate DistinctIds(list: seq<Id>) {
    forall j, k | 0 <= j < k < |list| :: list[j] != list[k]
  }

  /** The mails the walk will still come to, and that are not deleted, stay such. */
  ghost predicate KeepsAhead(s: State, s': State) {
    forall id | id in s'.list && WillReach(s, id) :: WillReach(s', id)
  }

  function Without(list: seq<Id>, i: nat): seq<Id>
    requires i < |list|
  {
    list[..i] + list[i + 1..]
  }

  lemma WithoutAt(list: seq<Id>, i: nat, j: nat)
    requires i < |list| && j + 1 < |list|
    ensures Without(list, i)[j] == if j < i then list[j] else list[j + 1]
  {
  }

  lemma DeletedIsGone(list: seq<Id>, i: nat)
    requires DistinctIds(list) && i < |list|
    ensures list[i] !in Without(list, i)
  {
    forall j | 0 <= j < |Without(list, i)| ensures Without(list, i)[j] != list[i] { WithoutAt(list, i, j); }
  }

  /** A deletion in front of index `p` moves the mail at `p` to where it is no longer seen from `p`. */
  lemma DeletionShifts(list: seq<Id>, i: nat, p: nat)
    requires DistinctIds(list) && i < p < |list|
    ensures
      var list' := Without(list, i);
      list[p] in list' && list[p] !in From(list', p) && list[p] in From(list, p)
  {
    var list' := Without(list, i);
    WithoutAt(list, i, p - 1);
    assert From(list, p)[0] == list[p];
    hide Without;
    forall j | 0 <= j < |From(list', p)| ensures From(list', p)[j] != list[p] {
      assert From(list', p)[j] == list'[p + j];
      WithoutAt(list, i, p + j);
    }
  }

  /** Every other mail from `p` on stays there. */
  lemma DeletionKeepsRest(list: seq<Id>, i: nat, p: nat)
    requires i < p < |list|
    ensures forall id | id in From(list, p) && id != list[p] :: id in From(Without(list, i), p)
  {
    forall id | id in From(list, p) && id != list[p] ensures id in From(Without(list, i), p) {
      var j :| p <= j < |list| && list[j] == id;
      WithoutAt(list, i, j - 1);
      assert From(Without(list, i), p)[j - 1 - p] == Without(list, i)[j - 1];
    }
  }

  /** A deletion that the server takes. */
  lemma DeletionIsTaken(s: State, limit: nat, i: nat)
    requires i < |s.list| && DistinctIds(s.list)
    ensures
      var s' := Next(s, limit, Destroy(i));
      s' == s.(list := Without(s.list, i), log := s'.log)
  {
    DeletedIsGone(s.list, i);
  }

  /**
   * Wherever the walk stands, with a batch asked for or in hand or none: a deletion
   * leaves it every mail it still has to reach if and only if it is not in front of
   * the next index to ask for, or nothing is left there but what the batch holds.
   */
  lemma DeletionIsSafeIffNotInFront(s: State, limit: nat, i: nat)
    requires i < |s.list| && DistinctIds(s.list)
    ensures
      var f := Frontier(s.position, s.walker);
      KeepsAhead(s, Next(s, limit, Destroy(i))) <==>
        (f.Some? && f.value < |s.list| ==> i >= f.value || (s.walker.Batching? && s.list[f.value] in s.walker.todo))
  {
    var s' := Next(s, limit, Destroy(i));
    var f := Frontier(s.position, s.walker);
    DeletionIsTaken(s, limit, i);
    DeletedIsGone(s.list, i);
    hide Next, DistinctIds;
    if f.Some? && f.value < |s.list| {
      if i >= f.value {
        FromAfterDestroy(s.list, i, f.value);
      } else {
        DeletionShifts(s.list, i, f.value);
        DeletionKeepsRest(s.list, i, f.value);
      }
    }
  }

  lemma ReachedFromStart(s: State, p: nat)
    requires WalkInv(s.list, s.born, s.position, s.walker) && s.walker.Batching? && p == s.walker.from
    ensures forall id | id in s.list && WillReach(s, id) :: id in From(s.list, p)
  {
    FromShrinks(s.list, p, s.walker.next);
  }

  /**
   * A batch that fails is asked for again from where it began: then a deletion
   * meanwhile is safe if and only if it was not in front of that place, or the mail
   * there was none the walk had to reach.
   */
  lemma DeletionUnderBatchIsSafeIff(s: State, limit: nat, i: nat)
    requires WalkInv(s.list, s.born, s.position, s.walker) && s.walker.Batching?
    requires i < |s.list| && DistinctIds(s.list)
    ensures
      var p := s.walker.from;
      KeepsAhead(s, Next(Next(s, limit, Destroy(i)), limit, BatchFails)) <==>
        i >= p || p >= |s.list| || !WillReach(s, s.list[p])
  {
    var s1 := Next(s, limit, Destroy(i));
    var p := s.walker.from;
    DeletionIsTaken(s, limit, i);
    DeletedIsGone(s.list, i);
    var s2 := Next(s1, limit, BatchFails);
    assert s2.list == Without(s.list, i) && s2.walker.Waiting? && s2.position == Some(p);
    ReachedFromStart(s, p);
    hide Next, DistinctIds, WalkInv;
    if i >= p {
      FromAfterDestroy(s.list, i, p);
    } else if p < |s.list| {
      DeletionShifts(s.list, i, p);
      DeletionKeepsRest(s.list, i, p);
    }
  }

  /**
   * A deletion between the bootstrap's query and its position write: with a full
   * page, the mails beyond it are all left to the walk if and only if the deletion is
   * not in front of the page's end, or nothing lies there that is not on the page.
   */
  lemma GapDeletionIsSafeIff(s: State, limit: nat, i: nat)
    requires s.poller.Registering? && |s.poller.page| == limit && s.walker.Waiting?
    requires forall id | id in s.list :: id in s.poller.page || id in From(s.list, limit)
    requires i < |s.list| && DistinctIds(s.list)
    ensures
      var s' := Next(Next(s, limit, Destroy(i)), limit, SavePosition(true));
      (forall id | id in s'.list :: id in s.poller.page || WillReach(s', id)) <==>
        i >= limit || |s.list| <= limit || s.list[limit] in s.poller.page
  {
    var s1 := Next(s, limit, Destroy(i));
    DeletionIsTaken(s, limit, i);
    DeletedIsGone(s.list, i);
    var s2 := Next(s1, limit, SavePosition(true));
    assert s2.list == Without(s.list, i) && s2.walker.Waiting? && s2.position == Some(limit);
    hide Next, DistinctIds;
    if i >= limit {
      FromAfterDestroy(s.list, i, limit);
    } else if limit < |s.list| {
      DeletionShifts(s.list, i, limit);
      DeletionKeepsRest(s.list, i, limit);
    }
  }

  /**
   * While the bootstrap waits for its state, an arrival is left to somebody
   * exactly when the walk has yet to come to where it lands: the token about to
   * be stored already stands for it.
   */
  lemma GapArrivalIsReachedIffAhead(s: State, limit: nat, id: Id, at: nat)
    requires WellFormed(s) && WalkInv(s.list, s.born, s.position, s.walker)
    requires s.poller.ReadingState? && id !in s.born && at <= |s.list|
    requires id !in s.poller.page && id !in s.handled
    ensures
      var s' := Next(Next(s, limit, Insert(id, at)), limit, StateReply);
      && s'.poller.Paging? && id in s'.list && s'.born[id] < s'.poller.token.at
      && (id in s'.handled || id in s'.poller.todo || WillReach(s', id) <==> Orderly(s, limit, Insert(id, at)))
  {
    var list' := s.list[..at] + [id] + s.list[at..];
    var f := Frontier(s.position, s.walker);
    assert list'[at] == id;
    if f.Some? && at < f.value {
      forall j | f.value <= j < |list'| ensures list'[j] != id { assert list'[j] == s.list[j - 1]; }
    }
  }

  /** Where an arrival lies in the list, seen from index `k`. */
  lemma ArrivalIsFromIff(list: seq<Id>, at: nat, id: Id, k: nat)
    requires at <= |list| && id !in list
    ensures
      var list' := list[..at] + [id] + list[at..];
      id in list' && (id in From(list', k) <==> k <= at)
  {
    var list' := list[..at] + [id] + list[at..];
    assert list'[at] == id;
    if k <= at {
      assert From(list', k)[at - k] == id;
    } else {
      forall j | k <= j < |list'| ensures list'[j] != id { assert list'[j] == list[j - 1]; }
    }
  }

  /**
   * An arrival between the bootstrap's query and its position write is left to
   * somebody exactly when the walk, with the position as it is then, has yet to
   * come to where it lands.
   */
  lemma QueryArrivalIsReachedIffAhead(s: State, limit: nat, id: Id, at: nat, stored: bool)
    requires WellFormed(s) && WalkInv(s.list, s.born, s.position, s.walker)
    requires s.poller.Registering? && id !in s.born && at <= |s.list|
    requires id !in s.poller.page && id !in s.handled
    ensures
      var s1 := Next(Next(s, limit, Insert(id, at)), limit, SavePosition(stored));
      var s' := Next(s1, limit, StateReply);
      && s'.poller.Paging? && id in s'.list && s'.born[id] < s'.poller.token.at
      && (id in s'.handled || id in s'.poller.todo || WillReach(s', id) <==> IsAhead(s1, at))
  {
    var s0 := Next(s, limit, Insert(id, at));
    var s1 := Next(s0, limit, SavePosition(stored));
    var s' := Next(s1, limit, StateReply);
    var list' := s.list[..at] + [id] + s.list[at..];
    var f := Frontier(s1.position, s1.walker);
    ArrivalIsFromIff(s.list, at, id, if f.Some? then f.value else 0);
    ArrivalIsNew(s, id);
    assert s1.list == list' && id in s1.born && s1.born[id] == |s.log| && |s1.log| == |s.log| + 1;
    assert s1.poller == ReadingState(s.poller.page) && s1.walker == s.walker && s1.handled == s.handled;
    assert s' == s1.(poller := Paging(s.poller.page, Token(|s1.log|, |s1.log|), false));
    hide Next, WellFormed, WalkInv;
  }

  lemma ArrivalIsNew(s: State, id: Id)
    requires WellFormed(s) && WalkInv(s.list, s.born, s.position, s.walker) && id !in s.born
    ensures id !in s.list && (s.walker.Batching? ==> id !in s.walker.todo)
  {
  }

  /** Every mail from index `k` on is still ahead of the walk. */
  ghost predicate AllAheadFrom(s: State, k: nat) {
    forall id | id in From(s.list, k) :: WillReach(s, id)
  }

  /** With distinct ids the walk comes to all mails from `k` on exactly when its frontier is at or before `k`. */
  lemma AheadIffFrontier(s: State, k: nat)
    requires DistinctIds(s.list) && k < |s.list| && (s.walker.Batching? ==> s.walker.todo == [])
    ensures
      var f := Frontier(s.position, s.walker);
      AllAheadFrom(s, k) <==> f.Some? && f.value <= k
  {
    var f := Frontier(s.position, s.walker);
    assert From(s.list, k)[0] == s.list[k] && s.list[k] in From(s.list, k);
    if f.Some? && f.value <= k {
      forall id | id in From(s.list, k) ensures id in From(s.list, f.value) {
        var j :| k <= j < |s.list| && s.list[j] == id;
        assert From(s.list, f.value)[j - f.value] == id;
      }
    } else if f.Some? {
      forall j | 0 <= j < |From(s.list, f.value)| ensures From(s.list, f.value)[j] != s.list[k] {}
      assert !WillReach(s, s.list[k]);
    } else {
      assert !WillReach(s, s.list[k]);
    }
  }

  /**
   * After a bootstrap with a full page the walk comes to everything behind that
   * page if and only if it has not ended and its position was stored, or an
   * older one in front of the page stands.
   */
  lemma FullPageIsWalkedIff(s: State, limit: nat, stored: bool)
    requires s.poller.Registering? && |s.poller.page| == limit && limit < |s.list| && DistinctIds(s.list)
    requires s.walker.Waiting? || s.walker.Stopped?
    ensures AllAheadFrom(Next(s, limit, SavePosition(stored)), limit) <==>
      s.walker.Waiting? && (stored || (s.position.Some? && s.position.value <= limit))
  {
    AheadIffFrontier(Next(s, limit, SavePosition(stored)), limit);
  }

  /**
   * A bootstrap that stores its position while a batch is in flight has it
   * overwritten when the batch ends: the walk still comes to everything behind
   * the bootstrap's page if and only if the batch was not the last one and ends
   * no further than the page. In the other order it always does.
   */
  lemma RaceKeepsPageIff(s: State, limit: nat)
    requires s.poller.Registering? && |s.poller.page| == limit && limit < |s.list| && DistinctIds(s.list)
    requires s.walker.Batching? && s.walker.todo == []
    ensures
      var racing := Next(Next(s, limit, SavePosition(true)), limit, FinishBatch);
      AllAheadFrom(racing, limit) <==> !s.walker.last && s.walker.next <= limit
    ensures
      var inOrder := Next(Next(s, limit, FinishBatch), limit, SavePosition(true));
      AllAheadFrom(inOrder, limit) <==> !s.walker.last
  {
    AheadIffFrontier(Next(Next(s, limit, SavePosition(true)), limit, FinishBatch), limit);
    AheadIffFrontier(Next(Next(s, limit, FinishBatch), limit, SavePosition(true)), limit);
  }

  /** A walk that has ended stays ended over every run without a restart, and no position stored meanwhile is read. */
  lemma {:induction false} EndedWalkStaysEnded(s: State, limit: nat, steps: seq<Step>)
    requires s.walker.Stopped? && Crash !in steps
    ensures Run(s, limit, steps).walker.Stopped?
    ensures forall id :: !WillReach(Run(s, limit, steps), id)
    decreases |steps|
  {
    if steps != [] {
      assert steps[0] != Crash && Crash !in steps[1..];
      EndedWalkStaysEnded(Next(s, limit, steps[0]), limit, steps[1..]);
    }
  }

  /** A walk that cannot read its position goes on only while no token is stored yet. */
  lemma UnreadPositionKeepsWalkIff(s: State, limit: nat, k: nat)
    requires s.walker.Waiting? && DistinctIds(s.list) && k < |s.list|
    ensures AllAheadFrom(Next(s, limit, PositionUnread), k) <==>
      s.changes.None? && s.position.Some? && s.position.value <= k
  {
    AheadIffFrontier(Next(s, limit, PositionUnread), k);
  }

  /** A restart takes the stored position up again. */
  lemma RestartResumesIff(s: State, limit: nat, k: nat)
    requires s.walker.Stopped? && DistinctIds(s.list) && k < |s.list|
    ensures AllAheadFrom(Next(s, limit, Crash), k) <==> s.position.Some? && s.position.value <= k
  {
    AheadIffFrontier(Next(s, limit, Crash), k);
  }
}
