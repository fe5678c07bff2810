/**
 * Double-checked creation under a database lock: `process_new_thread`
 * (src/sync/email.rs) makes one room per mail thread and `ensure_email_space`
 * (src/ghost.rs) one space per user, with any number of tasks at once.
 *
 * The lock is a row; a guard spawns a task that deletes the row some time after
 * the holder has left. Each store call, homeserver call and row deletion is one
 * step. Calls may fail anywhere, a task may be dropped anywhere, and a restart
 * drops every task and clears the lock table.
 */
module CreationLock {
  import opened Wrappers
  import opened Store

  type Room = string
  type TaskId = nat

  datatype Place =
    | Checking              // about to look the key up
    | Acquiring             // about to insert the lock row
    | Rechecking            // holds the lock from here ...
    | Creating
    | Saving(created: Room)
    | Using(found: Room)    // ... to here
    | Done(result: Option<Room>)

  datatype Task = Task(key: Key, at: Place) {
    predicate Holds() { at.Rechecking? || InCreation() || at.Using? }

    /** Between the failed re-check and the save. */
    predicate InCreation() { at.Creating? || at.Saving? }
  }

  datatype State = State(
    locks: set<Key>,               // room_creation_locks
    stored: map<Key, Room>,        // thread_mapping, and the email_space_room state of a user
    tasks: map<TaskId, Task>,
    releases: map<TaskId, Key>)    // spawned releases that have not run yet

  datatype Step =
    | Spawn(task: TaskId, key: Key)
    | Check(task: TaskId)
    | Acquire(task: TaskId)
    | AcquireFails(task: TaskId, inserted: bool)
    | Recheck(task: TaskId)
    | Create(task: TaskId, room: Room)
    | Save(task: TaskId)
    | Leave(task: TaskId)
    | Abort(task: TaskId)
    | Release(task: TaskId, works: bool)
    | Unbridge(room: Room)
    | Restart

  function Move(s: State, t: TaskId, place: Place): State
    requires t in s.tasks
  {
    s.(tasks := s.tasks[t := s.tasks[t].(at := place)])
  }

  /** Task `t` returns; dropping the guard of a holder spawns the release. */
  function Return(s: State, t: TaskId, result: Option<Room>): State
    requires t in s.tasks
  {
    var s' := if s.tasks[t].Holds() then s.(releases := s.releases[t := s.tasks[t].key]) else s;
    Move(s', t, Done(result))
  }

  function OnTask(s: State, t: TaskId, step: Step): State
    requires t in s.tasks
  {
    var key := s.tasks[t].key;
    match (step, s.tasks[t].at)
    case (Check(_), Checking) =>
      if key in s.stored then Return(s, t, Some(s.stored[key])) else Move(s, t, Acquiring)
    case (Acquire(_), Acquiring) =>
      if key in s.locks then Move(s, t, Checking) else Move(s, t, Rechecking).(locks := s.locks + {key})
    case (AcquireFails(_, inserted), Acquiring) =>
      if key in s.locks then Move(s, t, Done(None))
      else Move(s, t, Done(None)).(locks := if inserted then s.locks + {key} else s.locks)
    case (Recheck(_), Rechecking) =>
      Move(s, t, if key in s.stored then Using(s.stored[key]) else Creating)
    case (Create(_, room), Creating) => Move(s, t, Saving(room))
    case (Save(_), Saving(room)) => Move(s, t, Using(room)).(stored := s.stored[key := room])
    case (Leave(_), Using(room)) => Return(s, t, Some(room))
    case (Abort(_), Done(_)) => s
    case (Abort(_), _) => Return(s, t, None)
    case _ => s
  }

  function Next(s: State, step: Step): State {
    match step
    case Spawn(t, key) =>
      if t in s.tasks || t in s.releases then s else s.(tasks := s.tasks[t := Task(key, Checking)])
    case Release(t, works) =>
      if t !in s.releases then s
      else s.(releases := s.releases - {t}, locks := if works then s.locks - {s.releases[t]} else s.locks)
    case Unbridge(room) =>
      s.(stored := map k | k in s.stored && (k.Space? || s.stored[k] != room) :: s.stored[k])
    case Restart => s.(tasks := map[], releases := map[], locks := {})
    case _ => if step.task in s.tasks then OnTask(s, step.task, step) else s
  }

  function Run(s: State, steps: seq<Step>): State
    decreases |steps|
  {
    if steps == [] then s else Run(Next(s, steps[0]), steps[1..])
  }

  predicate Initial(s: State) {
    s.locks == {} && s.tasks == map[] && s.releases == map[]
  }

  /** The lock row of `key` is this task's to delete: it holds the lock, or its release is still to run. */
  ghost predicate Owns(s: State, t: TaskId, key: Key) {
    || (t in s.tasks && s.tasks[t].Holds() && s.tasks[t].key == key)
    || (t in s.releases && s.releases[t] == key)
  }

  ghost predicate Inv(s: State) {
    && (forall t, key | Owns(s, t, key) :: key in s.locks)
    && (forall t, u, key | Owns(s, t, key) && Owns(s, u, key) :: t == u)
    && (forall t | t in s.tasks && t in s.releases :: s.tasks[t].at.Done?)
    && (forall t | t in s.tasks && s.tasks[t].InCreation() :: s.tasks[t].key !in s.stored)
  }

  /** This step inserts the lock row for its task. */
  ghost predicate Acquires(s: State, step: Step, t: TaskId, key: Key) {
    step == Acquire(t) && t in s.tasks && s.tasks[t].at.Acquiring? && s.tasks[t].key == key && key !in s.locks
  }

  lemma OwnsAfter(s: State, step: Step, t: TaskId, key: Key)
    ensures Owns(Next(s, step), t, key) ==> Owns(s, t, key) || Acquires(s, step, t, key)
  {
  }

  lemma OwnersStayUnique(s: State, step: Step, t: TaskId, u: TaskId, key: Key)
    requires Inv(s)
    ensures Owns(Next(s, step), t, key) && Owns(Next(s, step), u, key) ==> t == u
    ensures Owns(Next(s, step), t, key) ==> key in Next(s, step).locks
  {
    OwnsAfter(s, step, t, key);
    OwnsAfter(s, step, u, key);
    if Owns(s, t, key) && step.Release? && step.task in s.releases && s.releases[step.task] == key {
      assert Owns(s, step.task, key);
    }
  }

  lemma CreatorsFindNothing(s: State, step: Step, t: TaskId)
    requires Inv(s)
    ensures
      var s' := Next(s, step);
      t in s'.tasks && s'.tasks[t].InCreation() ==> s'.tasks[t].key !in s'.stored
  {
    if step.Save? && step.task in s.tasks && t in s.tasks && s.tasks[t].InCreation() {
      assert Owns(s, t, s.tasks[t].key);
      assert s.tasks[step.task].Holds() ==> Owns(s, step.task, s.tasks[step.task].key);
    }
  }

  lemma StepKeepsInv(s: State, step: Step)
    requires Inv(s)
    ensures Inv(Next(s, step))
  {
    var s' := Next(s, step);
    forall t, u, key | Owns(s', t, key) && Owns(s', u, key) ensures t == u { OwnersStayUnique(s, step, t, u, key); }
    forall t, key | Owns(s', t, key) ensures key in s'.locks { OwnersStayUnique(s, step, t, t, key); }
    forall t | t in s'.tasks && s'.tasks[t].InCreation() ensures s'.tasks[t].key !in s'.stored {
      CreatorsFindNothing(s, step, t);
    }
  }

  lemma {:induction false} RunKeepsInv(s: State, steps: seq<Step>)
    requires Inv(s)
    ensures Inv(Run(s, steps))
    decreases |steps|
  {
    if steps != [] {
      StepKeepsInv(s, steps[0]);
      RunKeepsInv(Next(s, steps[0]), steps[1..]);
    }
  }

  // ----- Main results ----------------------------------------------------------

  /** In every interleaving at most one task per key is past the lock. */
  lemma OneCreatorPerKey(s0: State, steps: seq<Step>, t: TaskId, u: TaskId)
    requires Initial(s0)
    ensures
      var s := Run(s0, steps);
      t in s.tasks && u in s.tasks && s.tasks[t].Holds() && s.tasks[u].Holds() && s.tasks[t].key == s.tasks[u].key ==>
        t == u
  {
    RunKeepsInv(s0, steps);
    var s := Run(s0, steps);
    if t in s.tasks && u in s.tasks && s.tasks[t].Holds() && s.tasks[u].Holds() && s.tasks[t].key == s.tasks[u].key {
      assert Owns(s, t, s.tasks[t].key) && Owns(s, u, s.tasks[t].key);
    }
  }

  /** A spawned release deletes only the row its own task inserted: nobody holds that key meanwhile. */
  lemma ReleaseFreesOnlyItsOwn(s0: State, steps: seq<Step>, t: TaskId, works: bool, u: TaskId)
    requires Initial(s0)
    ensures
      var s := Run(s0, steps);
      var s' := Next(s, Release(t, works));
      && (t in s.releases && u in s.tasks && s.tasks[u].Holds() ==> s.tasks[u].key != s.releases[t])
      && (u in s'.tasks && s'.tasks[u].Holds() ==> s'.tasks[u].key in s'.locks)
  {
    RunKeepsInv(s0, steps);
    var s := Run(s0, steps);
    StepKeepsInv(s, Release(t, works));
    var s' := Next(s, Release(t, works));
    if u in s.tasks && s.tasks[u].Holds() {
      assert Owns(s, u, s.tasks[u].key) && Owns(s', u, s.tasks[u].key);
      assert t in s.releases ==> Owns(s, t, s.releases[t]);
    }
  }

  /** No step gives a key that has a room another room; only an unbridged room can be replaced. */
  lemma MappingIsNeverOverwritten(s0: State, steps: seq<Step>, step: Step, key: Key)
    requires Initial(s0)
    ensures
      var s := Run(s0, steps);
      var s' := Next(s, step);
      key in s.stored && key in s'.stored ==> s'.stored[key] == s.stored[key]
    ensures
      var s := Run(s0, steps);
      key in s.stored && key !in Next(s, step).stored ==> step == Unbridge(s.stored[key]) && key.Thread?
  {
    RunKeepsInv(s0, steps);
  }

  /** What a caller of `ensure_email_space` holds or returned is what is stored. */
  ghost predicate ResultStored(s: State, t: TaskId)
    requires t in s.tasks
  {
    match s.tasks[t].at
    case Using(room) => s.tasks[t].key in s.stored && s.stored[s.tasks[t].key] == room
    case Done(Some(room)) => s.tasks[t].key in s.stored && s.stored[s.tasks[t].key] == room
    case _ => true
  }

  ghost predicate ResultsStored(s: State) {
    forall t | t in s.tasks && s.tasks[t].key.Space? :: ResultStored(s, t)
  }

  lemma SpacesStay(s: State, step: Step, key: Key)
    requires Inv(s) && key.Space? && key in s.stored
    ensures key in Next(s, step).stored && Next(s, step).stored[key] == s.stored[key]
  {
  }

  /** The task moves by its own steps only. */
  lemma OnlyOwnStepsMove(s: State, step: Step, t: TaskId)
    requires t in Next(s, step).tasks
    ensures
      || Next(s, step).tasks[t].at.Checking?
      || (t in s.tasks && (Next(s, step).tasks[t] == s.tasks[t] || Next(s, step) == OnTask(s, t, step)))
  {
    hide OnTask;
    assert step.Spawn? || step.Release? || step.Unbridge? || step.Restart? ||
           (step.task in s.tasks ==> OnlyMoves(s, step)) by { TaskStepOnlyMoves(s, step); }
  }

  ghost predicate OnlyMoves(s: State, step: Step)
    requires !step.Unbridge? && !step.Restart? && step.task in s.tasks
  {
    var tasks := OnTask(s, step.task, step).tasks;
    forall u | u != step.task && u in tasks :: u in s.tasks && tasks[u] == s.tasks[u]
  }

  lemma TaskStepOnlyMoves(s: State, step: Step)
    ensures !step.Unbridge? && !step.Restart? && step.task in s.tasks ==> OnlyMoves(s, step)
  {
  }

  lemma OwnStepKeepsResult(s: State, step: Step, t: TaskId)
    requires t in s.tasks && ResultStored(s, t)
    ensures ResultStored(OnTask(s, t, step), t)
  {
  }

  lemma TaskKeepsResult(s: State, step: Step, t: TaskId)
    requires Inv(s) && ResultsStored(s) && t in Next(s, step).tasks && Next(s, step).tasks[t].key.Space?
    ensures ResultStored(Next(s, step), t)
  {
    OnlyOwnStepsMove(s, step, t);
    if t in s.tasks && s.tasks[t].key in s.stored && s.tasks[t].key.Space? {
      SpacesStay(s, step, s.tasks[t].key);
    }
    if t in s.tasks && s.tasks[t].key.Space? {
      OwnStepKeepsResult(s, step, t);
    }
    hide Inv, Next, OnTask;
  }

  lemma StepKeepsResults(s: State, step: Step)
    requires Inv(s) && ResultsStored(s)
    ensures ResultsStored(Next(s, step))
    ensures forall key: Key | key.Space? && key in s.stored ::
      key in Next(s, step).stored && Next(s, step).stored[key] == s.stored[key]
  {
    hide Next;
    forall t | t in Next(s, step).tasks && Next(s, step).tasks[t].key.Space? ensures ResultStored(Next(s, step), t) {
      TaskKeepsResult(s, step, t);
    }
    forall key: Key | key.Space? && key in s.stored
      ensures key in Next(s, step).stored && Next(s, step).stored[key] == s.stored[key]
    {
      SpacesStay(s, step, key);
    }
  }

  lemma {:induction false} RunKeepsResults(s: State, steps: seq<Step>)
    requires Inv(s) && ResultsStored(s)
    ensures Inv(Run(s, steps)) && ResultsStored(Run(s, steps))
    ensures forall key: Key | key.Space? && key in s.stored ::
      key in Run(s, steps).stored && Run(s, steps).stored[key] == s.stored[key]
    decreases |steps|
  {
    if steps != [] {
      StepKeepsInv(s, steps[0]);
      StepKeepsResults(s, steps[0]);
      RunKeepsResults(Next(s, steps[0]), steps[1..]);
    }
  }

  /**
   * All callers that return a space for a user return the same one, at any two
   * moments of a run, across failures of other callers and restarts.
   */
  lemma SpaceCallersAgree(s0: State, steps: seq<Step>, more: seq<Step>, t: TaskId, u: TaskId, user: string)
    requires Initial(s0)
    ensures
      var s := Run(s0, steps);
      var s' := Run(s, more);
      t in s.tasks && s.tasks[t].key == Space(user) && s.tasks[t].at.Done? && s.tasks[t].at.result.Some? &&
      u in s'.tasks && s'.tasks[u].key == Space(user) && s'.tasks[u].at.Done? && s'.tasks[u].at.result.Some? ==>
        s.tasks[t].at.result == s'.tasks[u].at.result
  {
    RunKeepsResults(s0, steps);
    RunKeepsResults(Run(s0, steps), more);
  }

  // ----- A row that nobody deletes ---------------------------------------------------

  ghost predicate Owned(s: State, key: Key) {
    exists t :: Owns(s, t, key)
  }

  /** Some run without a restart lets a task insert the row of `key`. */
  ghost predicate CanBeAcquired(s: State, key: Key) {
    exists more, t :: Restart !in more && Acquires(Run(s, more), Acquire(t), t, key)
  }

  lemma StepKeepsOrphan(s: State, step: Step, key: Key)
    requires key in s.locks && !Owned(s, key) && key !in s.stored && !step.Restart? && Inv(s)
    ensures key in Next(s, step).locks && !Owned(Next(s, step), key) && key !in Next(s, step).stored
  {
    var s' := Next(s, step);
    forall t ensures !Owns(s', t, key) { OwnsAfter(s, step, t, key); }
    assert forall t | t in s.releases && s.releases[t] == key :: Owns(s, t, key);
    assert forall t | t in s.tasks && s.tasks[t].Holds() && s.tasks[t].key == key :: Owns(s, t, key);
  }

  /** A row without an owner stays over every run without a restart, and its key never gets a room. */
  lemma {:induction false} OrphanStays(s: State, steps: seq<Step>, key: Key)
    requires Inv(s) && key in s.locks && !Owned(s, key) && key !in s.stored && Restart !in steps
    ensures
      var s' := Run(s, steps);
      key in s'.locks && !Owned(s', key) && key !in s'.stored
    decreases |steps|
  {
    hide Next, Inv, Owned;
    if steps != [] {
      assert !steps[0].Restart? && Restart !in steps[1..];
      StepKeepsInv(s, steps[0]);
      StepKeepsOrphan(s, steps[0], key);
      OrphanStays(Next(s, steps[0]), steps[1..], key);
    }
  }

  lemma {:induction false} FreshTask(ids: set<TaskId>) returns (t: TaskId)
    ensures t !in ids && forall u | u in ids :: u < t
    decreases |ids|
  {
    if ids == {} {
      t := 0;
    } else {
      var u :| u in ids;
      var v := FreshTask(ids - {u});
      assert ids == (ids - {u}) + {u};
      t := if u < v then v else u + 1;
    }
  }

  lemma RunThree(s: State, a: Step, b: Step, c: Step)
    ensures Run(s, [a, b, c]) == Next(Next(Next(s, a), b), c)
  {
    hide Next;
    assert [a, b, c][1..] == [b, c] && [b, c][1..] == [c] && [c][1..] == [];
    assert Run(Next(Next(s, a), b), [c]) == Next(Next(Next(s, a), b), c);
  }

  lemma {:induction false} RunConcat(s: State, xs: seq<Step>, ys: seq<Step>)
    ensures Run(s, xs + ys) == Run(Run(s, xs), ys)
    decreases |xs|
  {
    hide Next;
    if xs == [] {
      assert xs + ys == ys;
    } else {
      assert (xs + ys)[0] == xs[0] && (xs + ys)[1..] == xs[1..] + ys;
      RunConcat(Next(s, xs[0]), xs[1..], ys);
    }
  }

  /** The owner gives up, and its release frees the key for the next caller. */
  lemma OwnedIsFreed(s: State, t: TaskId, key: Key) returns (more: seq<Step>)
    requires Inv(s) && Owns(s, t, key) && key !in s.stored
    ensures Restart !in more && key !in Run(s, more).locks && key !in Run(s, more).stored
  {
    more := [Abort(t), Release(t, true), Release(t, true)];
    RunThree(s, more[0], more[1], more[2]);
    if t in s.tasks && s.tasks[t].Holds() {
      assert Next(s, Abort(t)) == Return(s, t, None);
      assert Owns(s, t, s.tasks[t].key);
    }
  }

  lemma FreeIsAcquired(s: State, key: Key) returns (more: seq<Step>, t: TaskId)
    requires key !in s.locks && key !in s.stored
    ensures Restart !in more && Acquires(Run(s, more), Acquire(t), t, key)
  {
    t := FreshTask(s.tasks.Keys + s.releases.Keys);
    more := [Spawn(t, key), Check(t), Release(t, true)];
    RunThree(s, more[0], more[1], more[2]);
  }

  /**
   * The lock of a key that has no room yet can be taken again without a restart if
   * and only if its row has an owner: a task past the lock, or a release still to
   * run. A row whose release was not stored, or whose insert reported an error,
   * keeps every later caller waiting.
   */
  lemma CanBeAcquiredIffOwned(s0: State, steps: seq<Step>, key: Key)
    requires Initial(s0)
    ensures
      var s := Run(s0, steps);
      key !in s.stored ==> (CanBeAcquired(s, key) <==> key !in s.locks || Owned(s, key))
  {
    RunKeepsInv(s0, steps);
    var s := Run(s0, steps);
    if key !in s.stored && key !in s.locks {
      var more, t := FreeIsAcquired(s, key);
    } else if key !in s.stored && Owned(s, key) {
      var t :| Owns(s, t, key);
      var free := OwnedIsFreed(s, t, key);
      var more, u := FreeIsAcquired(Run(s, free), key);
      RunConcat(s, free, more);
      assert Restart !in free + more && Acquires(Run(s, free + more), Acquire(u), u, key);
    } else if key !in s.stored {
      forall more, t | Restart !in more ensures !Acquires(Run(s, more), Acquire(t), t, key) {
        OrphanStays(s, more, key);
      }
    }
  }

  /** A release that is not stored leaves such a row. */
  lemma FailedReleaseOrphans(s: State, t: TaskId)
    requires Inv(s) && t in s.releases
    ensures
      var s', key := Next(s, Release(t, false)), s.releases[t];
      key in s'.locks && !Owned(s', key)
  {
    var s', key := Next(s, Release(t, false)), s.releases[t];
    assert Owns(s, t, key);
    forall u ensures !Owns(s', u, key) {
      OwnsAfter(s, Release(t, false), u, key);
      assert !Owns(s', t, key);
    }
  }
}
