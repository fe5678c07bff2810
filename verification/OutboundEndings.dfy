/**
 * How a message leaves the outbound queue, over every run of `OutboundRuns`: what
 * each ending of a submission does to its row, and that nothing else removes one.
 */
module OutboundEndings {
  import opened Wrappers
  import opened OutboundQueue
  import opened OutboundRuns

  ghost predicate InBatch(s: State, id: nat) {
    exists i :: 0 <= i < |s.batch| && s.batch[i].id == id
  }

  /** The row once was, and neither table nor worker has it any more. */
  ghost predicate Gone(s: State, id: nat) {
    id < s.nextId && id !in s.rows && !InBatch(s, id) && !InFlight(s, id)
  }

  ghost predicate SubmittedAfter(s: State, from: nat, id: nat) {
    exists j :: from <= j < |s.log| && s.log[j].Attempt? && s.log[j].id == id
  }

  lemma StepKeepsGone(s: State, step: Step, id: nat)
    requires Gone(s, id) && Allowed(s, step)
    ensures Gone(Next(s, step), id)
    ensures s.log <= Next(s, step).log && !SubmittedAfter(Next(s, step), |s.log|, id)
  {
    var s' := Next(s, step);
    if step.Start? && s.batch != [] {
      assert s.batch[0].id != id;
      forall i | 0 <= i < |s'.batch| ensures s'.batch[i].id != id {
        if s'.batch != s.batch { assert s'.batch[i] == s.batch[i + 1]; }
      }
    }
  }

  lemma {:induction false} RunKeepsGone(s: State, steps: seq<Step>, id: nat)
    requires Gone(s, id) && AllowedRun(s, steps)
    ensures
      var s' := Run(s, steps);
      Gone(s', id) && s.log <= s'.log && !SubmittedAfter(s', |s.log|, id)
    decreases |steps|
  {
    hide Gone, Next, Allowed;
    if steps != [] {
      var s1 := Next(s, steps[0]);
      StepKeepsGone(s, steps[0], id);
      RunKeepsGone(s1, steps[1..], id);
      var s2 := Run(s1, steps[1..]);
      forall j | |s.log| <= j < |s2.log| ensures !(s2.log[j].Attempt? && s2.log[j].id == id) {
        if j < |s1.log| { assert s2.log[j] == s1.log[j]; }
      }
    }
  }

  lemma RunKeepsShape(s0: State, steps: seq<Step>)
    requires Shape(s0) && AllowedRun(s0, steps)
    ensures Shape(Run(s0, steps))
    decreases |steps|
  {
    hide Shape, Next, Allowed;
    if steps != [] {
      StepKeepsShape(s0, steps[0]);
      RunKeepsShape(Next(s0, steps[0]), steps[1..]);
    }
  }

  lemma DoneIsGone(s: State, row: Row, outcome: Outcome)
    requires Shape(s) && s.current == Some(row) && (outcome.Delivered? || outcome.RoomGone?)
    ensures Gone(Next(s, Finish(outcome, true)), row.id)
  {
    hide Eligible, Finished;
    assert Taken(s, row);
  }

  /**
   * A message that was delivered, or whose room is gone, is out of the table once that
   * is stored, and no run, whatever happens, submits it again.
   */
  lemma DoneIsForGood(s0: State, steps: seq<Step>, outcome: Outcome, more: seq<Step>)
    requires Initial(s0) && AllowedRun(s0, steps) && Run(s0, steps).current.Some?
    requires outcome.Delivered? || outcome.RoomGone?
    requires AllowedRun(Next(Run(s0, steps), Finish(outcome, true)), more)
    ensures
      var id, s1 := Run(s0, steps).current.value.id, Next(Run(s0, steps), Finish(outcome, true));
      var s2 := Run(s1, more);
      id !in s1.rows && id !in s2.rows && !SubmittedAfter(s2, |s1.log|, id)
  {
    RunKeepsShape(s0, steps);
    var s := Run(s0, steps);
    hide Shape, Run, AllowedRun;
    DoneIsGone(s, s.current.value, outcome);
    RunKeepsGone(Next(s, Finish(outcome, true)), more, s.current.value.id);
  }

  /** The worker has just learned how the submission of this row ended, and the table will. */
  predicate Learns(s: State, step: Step, id: nat) {
    step.Finish? && step.stored && s.current.Some? && s.current.value.id == id
  }

  lemma StepTakesRowIff(s: State, step: Step, id: nat)
    requires Shape(s) && Allowed(s, step) && id in s.rows
    ensures
      id !in Next(s, step).rows <==>
        || step == Cancel(s.rows[id].event)
        || (Learns(s, step, id) && (step.outcome.Delivered? || step.outcome.RoomGone? || s.rows[id].retries == 9))
    ensures
      id in Next(s, step).rows ==>
        var row, row' := s.rows[id], Next(s, step).rows[id];
        && row'.event == row.event && row'.releaseAt == row.releaseAt
        && row'.body == (if step.Edit? && step.event == row.event then step.body else row.body)
        && (if Learns(s, step, id) then row'.retries == row.retries + 1 && row'.lastRetry == s.now
            else row'.retries == row.retries && row'.lastRetry == row.lastRetry)
  {
    hide Eligible, Finished;
    if s.current.Some? { assert Taken(s, s.current.value); }
    assert s.nextId !in s.rows;
  }

  /**
   * In every run a row leaves the table exactly when it is cancelled, or when the table
   * learns that it was delivered, that its room is gone or that its tenth attempt
   * failed. As long as it stays only its edits change what is sent, and only failures
   * of its own count, each once.
   */
  lemma RowLeavesIff(s0: State, steps: seq<Step>, step: Step, id: nat)
    requires Initial(s0) && AllowedRun(s0, steps) && Allowed(Run(s0, steps), step) && id in Run(s0, steps).rows
    ensures
      var s := Run(s0, steps);
      var s' := Next(s, step);
      && (id !in s'.rows <==>
            || step == Cancel(s.rows[id].event)
            || (Learns(s, step, id) && (!step.outcome.Failed? || Attempts(s.log, id) == 10 + Losses(s.log, id))))
      && (id in s'.rows ==>
            var row, row' := s.rows[id], s'.rows[id];
            && row'.event == row.event && row'.releaseAt == row.releaseAt
            && row'.body == (if step.Edit? && step.event == row.event then step.body else row.body)
            && (if Learns(s, step, id) then row'.retries == row.retries + 1 && row'.lastRetry == s.now
                else row'.retries == row.retries && row'.lastRetry == row.lastRetry))
  {
    RunKeepsInv(s0, steps);
    var s := Run(s0, steps);
    assert Shape(s) && Counted(s, id);
    assert InFlight(s, id) ==> Attempts(s.log, id) == s.rows[id].retries + Losses(s.log, id) + 1;
    hide Shape, Counted, Run, AllowedRun, Inv, Next, Attempts, Losses;
    StepTakesRowIff(s, step, id);
  }

  // ----- One pass of the worker ---------------------------------------------------------------

  /** Submit the rows in turn. */
  function PassSteps(outcomes: seq<Outcome>): seq<Step> {
    if outcomes == [] then [] else [Start, Finish(outcomes[0], true)] + PassSteps(outcomes[1..])
  }

  lemma {:induction false} PassRuns(s: State, outcomes: seq<Outcome>)
    requires s.current.None? && |s.batch| == |outcomes|
    ensures
      var s' := Run(s, PassSteps(outcomes));
      && AllowedRun(s, PassSteps(outcomes))
      && s'.rows == AllResolved(s.rows, s.batch, outcomes, s.now) && s'.batch == [] && s'.current.None?
    decreases |outcomes|
  {
    if outcomes != [] {
      var s1 := Next(s, Start);
      var s2 := Next(s1, Finish(outcomes[0], true));
      var rest := PassSteps(outcomes[1..]);
      assert s2.current.None? && s2.batch == s.batch[1..] && s2.now == s.now;
      assert s2.rows == Resolved(s.rows, s.batch[0], outcomes[0], s.now);
      assert PassSteps(outcomes)[0] == Start && PassSteps(outcomes)[1..] == [Finish(outcomes[0], true)] + rest;
      assert ([Finish(outcomes[0], true)] + rest)[1..] == rest;
      PassRuns(s2, outcomes[1..]);
      hide Next, Resolved;
      assert Run(s, PassSteps(outcomes)) == Run(s1, [Finish(outcomes[0], true)] + rest) == Run(s2, rest);
      assert Allowed(s, Start) && Allowed(s1, Finish(outcomes[0], true));
    }
  }

  /** What `RunOnce` does to the table is what the worker does in the run that submits its batch. */
  lemma PassIsRun(s: State, batch: seq<Row>, outcomes: seq<Outcome>)
    requires s.current.None? && s.batch == [] && IsBatch(s.rows, s.now, batch) && |batch| == |outcomes|
    ensures
      var steps := [TakeSnapshot(batch)] + PassSteps(outcomes);
      AllowedRun(s, steps) && Run(s, steps).rows == AllResolved(s.rows, batch, outcomes, s.now)
  {
    var steps := [TakeSnapshot(batch)] + PassSteps(outcomes);
    assert steps[0] == TakeSnapshot(batch) && steps[1..] == PassSteps(outcomes);
    PassRuns(Next(s, TakeSnapshot(batch)), outcomes);
    hide PassSteps, IsBatch;
  }
}
