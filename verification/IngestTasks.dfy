/**
 * `process_email`, `backfill_batch` and `sync_emails` as the source writes them,
 * each run undisturbed; what they do is a run of the steps that `Ingest` lets
 * interleave with each other, with the server and with crashes.
 */
module IngestTasks {
  import opened Wrappers
  import opened Text
  import opened Ingest
  import opened PollReplies

  /** A mail of a page: whether the server gave it, its sender, and whether posting it works. */
  datatype Mail = Mail(served: bool, sender: Option<string>, posts: bool)

  /** `eq_ignore_ascii_case` */
  predicate EqualIgnoringCase(a: string, b: string) {
    |a| == |b| && forall i | 0 <= i < |a| :: Lower(a[i]) == Lower(b[i])
  }

  lemma SameAddressIff(a: string, b: string)
    ensures EqualIgnoringCase(a, b) <==>
      |a| == |b| && forall i | 0 <= i < |a| ::
        || a[i] == b[i]
        || ('A' <= a[i] <= 'Z' && b[i] as int == a[i] as int + 32)
        || ('a' <= a[i] <= 'z' && b[i] as int == a[i] as int - 32)
  {
    forall i | 0 <= i < |a| && |a| == |b|
      ensures Lower(a[i]) == Lower(b[i]) <==>
        || a[i] == b[i]
        || ('A' <= a[i] <= 'Z' && b[i] as int == a[i] as int + 32)
        || ('a' <= a[i] <= 'z' && b[i] as int == a[i] as int - 32)
    {
    }
  }

  /** `should_skip_inbound`: mail without a sender, and the user's own. */
  predicate ShouldSkipInbound(sender: Option<string>, own: Option<string>) {
    sender.None? || (own.Some? && EqualIgnoringCase(own.value, sender.value))
  }

  function OutcomeFor(own: Option<string>, mail: Mail): Outcome {
    if !mail.served then NotFound
    else if ShouldSkipInbound(mail.sender, own) then OwnMail
    else if mail.posts then Bridged
    else NotBridged
  }

  function Outcomes(own: Option<string>, mails: seq<Mail>): seq<Outcome> {
    seq(|mails|, i requires 0 <= i < |mails| => OutcomeFor(own, mails[i]))
  }

  /** Which calls of `sync_emails` to the store work: the read of the token, its deletion, its write at the end. */
  datatype PollCalls = PollCalls(readable: bool, reset: bool, saved: bool)

  /** The mail was given to `process_email` with data at least this new. */
  predicate Given(handled: map<Id, nat>, id: Id, at: nat) {
    id in handled && handled[id] >= at
  }

  /** What the loops over mails fill. */
  datatype Books = Books(handled: map<Id, nat>, mapped: set<Id>, posts: seq<Id>, mirrored: seq<Id>)

  /** Nothing is taken back, and exactly the mails mapped meanwhile were posted. */
  ghost predicate Adds(before: Books, after: Books) {
    && (forall id, at | Given(before.handled, id, at) :: Given(after.handled, id, at))
    && before.mapped <= after.mapped && before.posts <= after.posts && before.mirrored <= after.mirrored
    && (forall id :: id in after.mapped <==> id in before.mapped || id in after.posts[|before.posts|..])
  }

  lemma AddsOn(a: Books, b: Books, c: Books)
    requires Adds(a, b) && Adds(b, c)
    ensures Adds(a, c)
  {
    assert c.posts[|a.posts|..] == b.posts[|a.posts|..] + c.posts[|b.posts|..];
  }

  /**
   * The mail was taken up as of `at`: attempted if the server has it, and bridged and its
   * read state synced if it can be.
   */
  ghost predicate Took(books: Books, gone: set<Id>, list: seq<Id>, own: Option<string>, id: Id, at: nat, mail: Mail) {
    && (mail.served || id in list ==> Given(books.handled, id, at))
    && (mail.served && mail.posts && !ShouldSkipInbound(mail.sender, own) ==>
          (id in books.mapped || id in gone) && id in books.mirrored)
  }

  lemma TookStays(before: Books, after: Books, gone: set<Id>, gone': set<Id>, list: seq<Id>, own: Option<string>,
                  id: Id, at: nat, mail: Mail)
    requires Adds(before, after) && gone <= gone' && Took(before, gone, list, own, id, at, mail)
    ensures Took(after, gone', list, own, id, at, mail)
  {
  }

  /** Every mail of the list from `p` up to `q` was taken up as of `at`. */
  ghost predicate Walked(books: Books, gone: set<Id>, list: seq<Id>, at: nat, own: Option<string>, p: nat, q: nat,
                         oracle: Id -> Mail)
  {
    forall k | p <= k < q && k < |list| :: Took(books, gone, list, own, list[k], at, oracle(list[k]))
  }

  lemma WalkedNowhere(books: Books, gone: set<Id>, list: seq<Id>, at: nat, own: Option<string>, p: nat,
                      oracle: Id -> Mail)
    ensures Walked(books, gone, list, at, own, p, p, oracle)
  {
  }

  lemma WalkedOn(books: Books, gone: set<Id>, list: seq<Id>, at: nat, own: Option<string>, p: nat, q: nat, r: nat,
                 oracle: Id -> Mail)
    requires Walked(books, gone, list, at, own, p, q, oracle) && Walked(books, gone, list, at, own, q, r, oracle)
    ensures Walked(books, gone, list, at, own, p, r, oracle)
  {
    hide Took;
  }

  lemma StayWalked(before: Books, after: Books, gone: set<Id>, list: seq<Id>, at: nat, own: Option<string>, p: nat,
                   q: nat, oracle: Id -> Mail)
    requires Adds(before, after) && Walked(before, gone, list, at, own, p, q, oracle)
    ensures Walked(after, gone, list, at, own, p, q, oracle)
  {
    hide Adds, Took;
    forall k | p <= k < q && k < |list| ensures Took(after, gone, list, own, list[k], at, oracle(list[k])) {
      TookStays(before, after, gone, gone, list, own, list[k], at, oracle(list[k]));
    }
  }

  lemma BatchIsWalked(books: Books, gone: set<Id>, list: seq<Id>, at: nat, own: Option<string>, p: nat, n: nat,
                      mails: seq<Mail>, oracle: Id -> Mail)
    requires |mails| == n && (n > 0 ==> p + n <= |list|)
    requires forall i | 0 <= i < n :: mails[i] == oracle(list[p + i])
    requires forall i | 0 <= i < n :: Took(books, gone, list, own, list[p + i], at, mails[i])
    ensures Walked(books, gone, list, at, own, p, p + n, oracle)
  {
    hide Took;
    forall k | p <= k < p + n && k < |list| ensures Took(books, gone, list, own, list[k], at, oracle(list[k])) {
      assert mails[k - p] == oracle(list[p + (k - p)]);
    }
  }

  lemma BatchWasLast(books: Books, gone: set<Id>, list: seq<Id>, at: nat, own: Option<string>, p: nat, n: nat,
                     oracle: Id -> Mail)
    requires Walked(books, gone, list, at, own, p, p + n, oracle) && p + n >= |list|
    ensures Walked(books, gone, list, at, own, p, |list|, oracle)
  {
    hide Took;
  }

  /** How the calls of one turn of the backfill loop go. */
  datatype Turn = Turn(changesRead: bool, positionRead: bool, asked: bool, fetched: bool, saved: bool) {
    predicate Works() { positionRead && asked && fetched && saved }
  }

  function Working(turns: seq<Turn>): nat {
    if turns == [] then 0
    else Working(turns[..|turns| - 1]) + if turns[|turns| - 1].Works() then 1 else 0
  }

  /** How a turn of the backfill loop ended. */
  datatype Round = Advanced | Ended | Retried

  /** One user's account: the mailbox as the server lists it meanwhile, the stored rows, the history. */
  class Account {
    const list: seq<Id>
    const log: seq<Change>
    const born: map<Id, nat>
    const own: Option<string>
    var changes: Option<Token>
    var position: Option<nat>
    var mapped: set<Id>
    var gone: set<Id>
    var handled: map<Id, nat>
    var posts: seq<Id>
    var mirrored: seq<Id>

    constructor (list: seq<Id>, log: seq<Change>, born: map<Id, nat>, own: Option<string>)
      ensures this.list == list && this.log == log && this.born == born && this.own == own
      ensures Now(Resting, Waiting) == State(list, log, born, None, None, {}, {}, Resting, Waiting, map[], [])
    {
      this.list, this.log, this.born, this.own := list, log, born, own;
      changes, position, mapped, gone, handled, posts, mirrored := None, None, {}, {}, map[], [], [];
    }

    /** The state of both tasks and the store, with the tasks at these places. */
    function Now(poller: Poller, walker: Walker): State reads this {
      State(list, log, born, changes, position, mapped, gone, poller, walker, handled, posts)
    }

    function Noting(): Notes reads this {
      Notes(position, gone)
    }

    ghost function Done(): Books reads this {
      Books(handled, mapped, posts, mirrored)
    }

    /**
     * `process_email` on data the server gave at log index `data`. Mail that is
     * bridged, from before or by now, goes on to `sync_read_state`; mail the bridge
     * skips or fails to post does not.
     */
    method ProcessEmail(id: Id, data: nat, mail: Mail)
      modifies this`mapped, this`handled, this`posts, this`mirrored
      ensures forall p, w :: Now(p, w) == Process(old(Now(p, w)), id, data, OutcomeFor(own, mail))
      ensures mirrored == old(mirrored) +
        (if (mail.served || id in list) && (id in old(mapped + gone) || (OutcomeFor(own, mail).Bridged?))
          then [id] else [])
      ensures Adds(old(Done()), Done()) && Took(Done(), gone, list, own, id, data, mail)
      ensures id in mapped <==>
        || id in old(mapped)
        || (&& mail.served && mail.posts && id !in gone
            && mail.sender.Some? && (own.Some? ==> !EqualIgnoringCase(own.value, mail.sender.value)))
      ensures forall x | x != id :: x in mapped <==> x in old(mapped)
    {
      if !mail.served && id !in list {
        return;
      }
      handled := handled[id := if id in handled then Max(handled[id], data) else data];
      if id in mapped || id in gone {
        mirrored := mirrored + [id];
        return;
      }
      if ShouldSkipInbound(mail.sender, own) {
        return;
      }
      if mail.served && mail.posts {
        posts := posts + [id];
        mapped := mapped + {id};
        mirrored := mirrored + [id];
      }
    }

    /** The loop both tasks have over a fetched page: `todo` as the walker holds it. */
    method ProcessBatch(limit: nat, from: nat, ids: seq<Id>, next: nat, last: bool, mails: seq<Mail>)
      requires |mails| == |ids|
      modifies this`mapped, this`handled, this`posts, this`mirrored
      ensures Now(Resting, Batching(from, [], next, last, |log|)) ==
        Run(old(Now(Resting, Batching(from, ids, next, last, |log|))), limit, BatchSteps(Outcomes(own, mails)))
      ensures Adds(old(Done()), Done())
      ensures forall i | 0 <= i < |ids| :: Took(Done(), gone, list, own, ids[i], |log|, mails[i])
    {
      hide Process, Run, OutcomeFor, Took, Adds;
      RunNone(Now(Resting, Batching(from, ids, next, last, |log|)), limit);
      ghost var start := Now(Resting, Batching(from, ids, next, last, |log|));
      ghost var outcomes := Outcomes(own, mails);
      var k := 0;
      assert ids[0..] == ids;
      AddsNothing(Done());
      while k < |ids|
        invariant 0 <= k <= |ids|
        invariant Now(Resting, Batching(from, ids[k..], next, last, |log|)) ==
          Run(start, limit, BatchSteps(outcomes[..k]))
        invariant Adds(old(Done()), Done())
        invariant forall i | 0 <= i < k :: Took(Done(), gone, list, own, ids[i], |log|, mails[i])
      {
        BatchSnoc(start, limit, outcomes, k);
        assert ids[k..][1..] == ids[k + 1..];
        ghost var before := Done();
        ProcessEmail(ids[k], |log|, mails[k]);
        AddsOn(old(Done()), before, Done());
        forall i | 0 <= i < k ensures Took(Done(), gone, list, own, ids[i], |log|, mails[i]) {
          TookStays(before, Done(), gone, gone, list, own, ids[i], |log|, mails[i]);
        }
        k := k + 1;
      }
      assert outcomes[..k] == outcomes && ids[k..] == [];
    }

    /**
     * One turn of `run_backfill_loop` at the stored position, with `backfill_batch`:
     * the request, the fetch and the write of the new position, or its deletion at the
     * end, may each fail. The position moves past the batch, or goes with a batch that
     * was not full, exactly when nothing needed failed.
     */
    method BackfillRound(limit: nat, asked: bool, fetched: bool, saved: bool, mails: seq<Mail>) returns (round: Round)
      requires position.Some?
      requires |mails| == if position.value <= |list| then Min(limit, |list| - position.value) else 0
      modifies this`position, this`mapped, this`handled, this`posts, this`mirrored
      ensures Now(Resting, if round.Ended? then Stopped else Waiting) ==
        Run(old(Now(Resting, Waiting)), limit,
          RoundSteps(asked, fetched || mails == [], RoundEnd(round, saved), Outcomes(own, mails)))
      ensures round.Retried? <==>
        !asked || (!fetched && mails != []) || (!saved && mails != [] && |mails| == limit)
      ensures round.Ended? <==> asked && (fetched || mails == []) && (mails == [] || |mails| < limit)
      ensures position ==
        match round
        case Advanced => Some(old(position).value + |mails|)
        case Ended => if saved then None else old(position)
        case Retried => old(position)
      ensures Adds(old(Done()), Done())
      ensures if asked && (fetched || mails == [])
        then forall i | 0 <= i < |mails| ::
               Took(Done(), gone, list, own, list[old(position).value + i], |log|, mails[i])
        else Done() == old(Done())
    {
      ghost var start := Now(Resting, Waiting);
      AddsNothing(Done());
      hide Run, Next, InHand, BatchSteps, RoundSteps, RoundEnd, Took, Adds, Outcomes;
      if !asked || (!fetched && mails != []) {
        FailedRoundRun(start, limit, asked, fetched || mails == [], RoundEnd(Retried, saved), Outcomes(own, mails));
        return Retried;
      }
      round := FinishRound(limit, saved, mails);
      RoundRun(start, limit, Outcomes(own, mails), RoundEnd(round, saved));
    }

    /** The mails of a fetched batch, and the position behind it. */
    method FinishRound(limit: nat, saved: bool, mails: seq<Mail>) returns (round: Round)
      requires position.Some?
      requires |mails| == if position.value <= |list| then Min(limit, |list| - position.value) else 0
      modifies this`position, this`mapped, this`handled, this`posts, this`mirrored
      ensures Now(Resting, if round.Ended? then Stopped else Waiting) ==
        Next(Run(old(InHand(Now(Resting, Waiting), limit, position.value)), limit, BatchSteps(Outcomes(own, mails))),
             limit, RoundEnd(round, saved))
      ensures round.Ended? <==> mails == [] || |mails| < limit
      ensures round.Retried? <==> mails != [] && |mails| >= limit && !saved
      ensures position ==
        match round
        case Advanced => Some(old(position).value + |mails|)
        case Ended => if saved then None else old(position)
        case Retried => old(position)
      ensures Adds(old(Done()), Done())
      ensures forall i | 0 <= i < |mails| ::
        Took(Done(), gone, list, own, list[old(position).value + i], |log|, mails[i])
    {
      hide Run, Next, BatchAt, BatchSteps, Took, Adds, Outcomes;
      var from := position.value;
      var ids := BatchAt(list, from, limit);
      BatchIsNext(list, from, limit);
      var last := |ids| < limit || ids == [];
      assert Now(Resting, Batching(from, ids, from + |ids|, last, |log|)) == InHand(Now(Resting, Waiting), limit, from);
      hide InHand;
      ProcessBatch(limit, from, ids, from + |ids|, last, mails);
      BatchEnds(Now(Resting, Batching(from, [], from + |ids|, last, |log|)), limit);
      if last {
        if saved {
          position := None;
        }
        return Ended;
      }
      if !saved {
        return Retried;
      }
      position := Some(from + |ids|);
      return Advanced;
    }

    /** A turn of the backfill loop with a position, on the mails as the server would give them. */
    method TakeTurn(limit: nat, turn: Turn, oracle: Id -> Mail) returns (round: Round, ghost taken: seq<Step>)
      requires position.Some?
      modifies this`position, this`mapped, this`handled, this`posts, this`mirrored
      ensures Now(Resting, if round.Ended? then Stopped else Waiting) ==
        Run(old(Now(Resting, Waiting)), limit, taken)
      ensures Adds(old(Done()), Done())
      ensures round.Retried? ==> position == old(position) && !turn.Works()
      ensures round.Advanced? ==>
        && position == Some(old(position).value + limit) && position.value <= |list|
        && Walked(Done(), gone, list, |log|, own, old(position).value, position.value, oracle)
      ensures round.Ended? && limit > 0 ==> Walked(Done(), gone, list, |log|, own, old(position).value, |list|, oracle)
    {
      var p := position.value;
      var n := if p <= |list| then Min(limit, |list| - p) else 0;
      var mails := seq(n, j requires 0 <= j < n => oracle(list[p + j]));
      hide Run, Took, Adds, Outcomes, RoundSteps, RoundEnd, Walked;
      round := BackfillRound(limit, turn.asked, turn.fetched, turn.saved, mails);
      taken := RoundSteps(turn.asked, turn.fetched || mails == [], RoundEnd(round, turn.saved), Outcomes(own, mails));
      if !round.Retried? {
        BatchIsWalked(Done(), gone, list, |log|, own, p, n, mails, oracle);
        if round.Ended? && limit > 0 { BatchWasLast(Done(), gone, list, |log|, own, p, n, oracle); }
      }
    }

    /**
     * `run_backfill_loop` over these turns. From a stored position, as long as no read
     * of it fails once a token is stored, every mail up to the present position was taken
     * up, and all of them once the walk has ended; it ends at the latest when the turns
     * in which every call worked have covered the mails that were left.
     */
    method RunBackfillLoop(limit: nat, turns: seq<Turn>, oracle: Id -> Mail)
        returns (ended: bool, ghost steps: seq<Step>)
      modifies this`position, this`mapped, this`handled, this`posts, this`mirrored
      ensures Now(Resting, if ended then Stopped else Waiting) == Run(old(Now(Resting, Waiting)), limit, steps)
      ensures Adds(old(Done()), Done())
      ensures old(position).None? ==>
        && position.None? && Done() == old(Done())
        && (ended <==> changes.Some? && exists i :: 0 <= i < |turns| && turns[i].changesRead)
      ensures old(position).Some? && Readable(turns) && limit > 0 ==>
        && (!ended ==> position.Some? && Walked(Done(), gone, list, |log|, own, old(position).value, position.value,
           oracle))
        && (ended ==> Walked(Done(), gone, list, |log|, own, old(position).value, |list|, oracle))
        && (0 < Working(turns) && Working(turns) * limit > |list| - old(position).value ==> ended)
    {
      hide Run, Next, Took, Adds, Walked, Working;
      ghost var start, p0 := Now(Resting, Waiting), position;
      steps := [];
      RunNothing(start, limit);
      AddsNothing(Done());
      if p0.Some? { WalkedNowhere(Done(), gone, list, |log|, own, p0.value, oracle); }
      WorkingBegins(turns);
      for i := 0 to |turns|
        invariant Now(Resting, Waiting) == Run(start, limit, steps) && Adds(old(Done()), Done())
        invariant p0.None? ==> position.None? && Done() == old(Done())
        invariant p0.None? && changes.Some? ==> forall j | 0 <= j < i :: !turns[j].changesRead
        invariant p0.Some? ==>
          && position.Some? && p0.value <= position.value
          && Walked(Done(), gone, list, |log|, own, p0.value, position.value, oracle)
        invariant p0.Some? && 0 < Working(turns[..i]) ==>
          position.value <= |list| && Working(turns[..i]) * limit <= position.value - p0.value
      {
        var turn := turns[i];
        WorkingGoesOn(turns, i, limit);
        if !turn.positionRead || position.None? {
          if turn.changesRead && changes.Some? {
            ghost var stop := if turn.positionRead then StartBatch else PositionUnread;
            StopStep(Now(Resting, Waiting), limit, stop);
            Snoc(start, limit, steps, stop);
            steps := steps + [stop];
            return true, steps;
          }
          continue;
        }
        ghost var before, q := Done(), position.value;
        ghost var taken;
        var round;
        round, taken := TakeTurn(limit, turn, oracle);
        AddsOn(old(Done()), before, Done());
        RunConcat(start, limit, steps, taken);
        steps := steps + taken;
        StayWalked(before, Done(), gone, list, |log|, own, p0.value, q, oracle);
        if round.Ended? {
          if limit > 0 { WalkedOn(Done(), gone, list, |log|, own, p0.value, q, |list|, oracle); }
          return true, steps;
        }
        if round.Advanced? { WalkedOn(Done(), gone, list, |log|, own, p0.value, q, position.value, oracle); }
      }
      assert turns[..|turns|] == turns;
      return false, steps;
    }

    /** The loop over the mails of a page of the poller. */
    method ProcessPage(limit: nat, ids: seq<Id>, token: Token, more: bool, oracle: Id -> Mail)
      modifies this`mapped, this`handled, this`posts, this`mirrored
      ensures Now(Paging([], token, more), Waiting) ==
        Run(old(Now(Paging(ids, token, more), Waiting)), limit, PageSteps(own, ids, oracle))
      ensures Adds(old(Done()), Done())
      ensures forall id | id in ids :: Took(Done(), gone, list, own, id, token.at, oracle(id))
    {
      hide Process, Run, OutcomeFor, Took, Adds;
      ghost var start := Now(Paging(ids, token, more), Waiting);
      PageStart(start, limit, own, oracle);
      AddsNothing(Done());
      var k := 0;
      assert ids[0..] == ids && ids[..0] == [];
      while k < |ids|
        invariant 0 <= k <= |ids|
        invariant Now(Paging(ids[k..], token, more), Waiting) == Run(start, limit, PageSteps(own, ids[..k], oracle))
        invariant Adds(old(Done()), Done())
        invariant forall i | 0 <= i < k :: Took(Done(), gone, list, own, ids[i], token.at, oracle(ids[i]))
      {
        PageSnoc(start, limit, own, ids, oracle, k);
        assert ids[k..][1..] == ids[k + 1..];
        ghost var before := Done();
        ProcessEmail(ids[k], token.at, oracle(ids[k]));
        AddsOn(old(Done()), before, Done());
        forall i | 0 <= i < k ensures Took(Done(), gone, list, own, ids[i], token.at, oracle(ids[i])) {
          TookStays(before, Done(), gone, gone, list, own, ids[i], token.at, oracle(ids[i]));
        }
        k := k + 1;
      }
      assert ids[..k] == ids && ids[k..] == [];
    }

    /** The mailbox the requests of a poll meet. */
    function Box(limit: nat): Mailbox {
      Mailbox(list, log, limit)
    }

    /**
     * `sync_emails`: pages of changes until the last, or one page of a bootstrap.
     * `replies` are the server's answers in turn; without a fitting one the request
     * fails. An answer that leaves a change out counts as a failure. The poll succeeds
     * exactly when the answers lead to a token and the store works, that token is then
     * stored, and every mail of a page it came to was taken up with that page's state.
     */
    method SyncEmails(limit: nat, calls: PollCalls, replies: seq<Reply>, oracle: Id -> Mail)
      returns (ok: bool, ghost steps: seq<Step>)
      modifies this
      ensures Now(Resting, Waiting) == Run(old(Now(Resting, Waiting)), limit, steps)
      ensures
        var ends := Ends(Box(limit), calls.reset, old(changes), old(changes), replies);
        && ok == (calls.readable && calls.saved && ends.end.Some?)
        && changes == (if ok then ends.end else if calls.readable then ends.kept else old(changes))
      ensures Adds(old(Done()), Done()) && old(gone) <= gone
      ensures calls.readable ==> forall id, at | Hands(Box(limit), calls.reset, old(changes), replies, id, at) ::
        Took(Done(), gone, list, own, id, at, oracle(id))
      ensures Noting() ==
        if calls.readable then Notices(Box(limit), calls.reset, old(changes), replies, old(Noting())) else old(Noting())
    {
      hide Run, Next, Took, Adds, Ends, Hands, Notices;
      ghost var start := Now(Resting, Waiting);
      AddsNothing(Done());
      if !calls.readable {
        RunNothing(start, limit);
        return false, [];
      }
      RunOne(start, limit, StartPoll);
      PollStart(start, limit);
      var end: Option<Token>;
      ghost var poller, taken;
      end, poller, taken := FollowReplies(limit, calls.reset, replies, oracle);
      RunConcat(start, limit, [StartPoll], taken);
      steps := [StartPoll] + taken;
      ok := end.Some? && calls.saved;
      ghost var last := if ok then FinishPage else PollFails;
      FailStep(Now(poller, Waiting), limit);
      if ok { FinishStep(Now(poller, Waiting), limit); }
      Snoc(start, limit, steps, last);
      steps := steps + [last];
      if ok {
        changes := end;
      }
    }

    /** The answers in turn, up to the end of the last page. */
    method FollowReplies(limit: nat, reset: bool, replies: seq<Reply>, oracle: Id -> Mail)
      returns (end: Option<Token>, ghost poller: Poller, ghost steps: seq<Step>)
      modifies this
      ensures Now(poller, Waiting) == Run(old(Now(Asking(changes), Waiting)), limit, steps)
      ensures end.Some? ==> poller == Paging([], end.value, false)
      ensures PollEnd(changes, end) == Ends(Box(limit), reset, old(changes), old(changes), replies)
      ensures Adds(old(Done()), Done()) && old(gone) <= gone
      ensures forall id, at | Hands(Box(limit), reset, old(changes), replies, id, at) ::
        Took(Done(), gone, list, own, id, at, oracle(id))
      ensures Noting() == Notices(Box(limit), reset, old(changes), replies, old(Noting()))
    {
      hide Run, Next, Took, Adds, Ends, Hands, Follows, Owes, Notices, Noted, Asking;
      ghost var start, box, token0 := Now(Asking(changes), Waiting), Box(limit), changes;
      var current := changes;
      ghost var left := replies;
      steps := [];
      AddsNothing(Done());
      RunNothing(start, limit);
      OwesAll(box, own, reset, Done(), gone, token0, replies, oracle);
      var i := 0;
      while i < |replies|
        invariant 0 <= i <= |replies| && left == replies[i..]
        invariant Now(Asking(current), Waiting) == Run(start, limit, steps)
        invariant Ends(box, reset, token0, token0, replies) == Ends(box, reset, changes, current, left)
        invariant Adds(old(Done()), Done()) && old(gone) <= gone
        invariant Owes(box, own, reset, Done(), gone, token0, replies, current, left, oracle)
        invariant Notices(box, reset, token0, replies, old(Noting())) ==
          Notices(box, reset, current, left, Noting())
      {
        assert left[0] == replies[i] && left[1..] == replies[i + 1..];
        EndsNext(box, reset, changes, current, left);
        NoticesNext(box, reset, current, left, Noting());
        var next: Followed;
        ghost var taken;
        ghost var before, goneBefore := Done(), gone;
        next, poller, taken := Follow(limit, reset, current, replies[i], oracle);
        AddsOn(old(Done()), before, Done());
        RunConcat(start, limit, steps, taken);
        steps := steps + taken;
        OwesNext(box, own, reset, before, goneBefore, Done(), gone, token0, replies, current, left, oracle);
        if next.ToEnd? {
          return Some(next.page.token), poller, steps;
        }
        if next.Fails? {
          return None, poller, steps;
        }
        current := if next.ToNext? then Some(next.page.token) else None;
        i, left := i + 1, left[1..];
      }
      OwesNothing(box, own, reset, Done(), gone, token0, replies, current, left, oracle);
      EndsWithout(box, reset, changes, current);
      NoticesWithout(box, reset, current, Noting());
      return None, Asking(current), steps;
    }

    /** One answer: the token is dropped, or the page is followed with its mails. */
    method Follow(limit: nat, reset: bool, current: Option<Token>, reply: Reply, oracle: Id -> Mail)
      returns (next: Followed, ghost poller: Poller, ghost taken: seq<Step>)
      modifies this
      ensures next == Follows(Box(limit), reset, current, reply)
      ensures changes == if next.Anew? then None else old(changes)
      ensures Now(poller, Waiting) == Run(old(Now(Asking(current), Waiting)), limit, taken)
      ensures
        && (next.Anew? ==> poller == Asking(None))
        && (next.ToNext? ==> poller == Asking(Some(next.page.token)))
        && (next.ToEnd? ==> poller == Paging([], next.page.token, false))
      ensures Noting() == Noted(Box(limit), current, reply, old(Noting())) && old(gone) <= gone
      ensures Adds(old(Done()), Done()) && TookPage(Done(), gone, list, own, next, oracle)
    {
      hide Run, Next, PageOf, Adds, Took;
      ghost var here := Now(Asking(current), Waiting);
      AddsNothing(Done());
      if current.Some? && reply.TooOld? {
        if !reset {
          RunNothing(here, limit);
          return Fails, here.poller, [];
        }
        ResetStep(here, limit);
        RunOne(here, limit, CannotCalculate);
        changes := None;
        return Anew, Querying, [CannotCalculate];
      }
      var page: Option<PageInHand>;
      page, poller, taken := TakePage(limit, current, reply);
      if page.None? {
        return Fails, poller, taken;
      }
      var PageInHand(ids, token, more) := page.value;
      RunConcat(here, limit, taken, PageSteps(own, ids, oracle));
      ProcessPage(limit, ids, token, more, oracle);
      poller, taken := Paging([], token, more), taken + PageSteps(own, ids, oracle);
      if !more {
        return ToEnd(page.value), poller, taken;
      }
      FinishStep(Now(poller, Waiting), limit);
      Snoc(here, limit, taken, FinishPage);
      return ToNext(page.value), Asking(Some(token)), taken + [FinishPage];
    }

    /** The requests of one page, up to its fetched mails; without a page one of them failed. */
    method TakePage(limit: nat, current: Option<Token>, reply: Reply)
      returns (page: Option<PageInHand>, ghost poller: Poller, ghost taken: seq<Step>)
      modifies this`position, this`gone
      ensures page == PageOf(Box(limit), current, reply)
      ensures page.Some? ==> poller == Paging(page.value.ids, page.value.token, page.value.more)
      ensures Noting() == Noted(Box(limit), current, reply, old(Noting()))
      ensures Now(poller, Waiting) == Run(old(Now(Asking(current), Waiting)), limit, taken)
    {
      hide Run, Next, FaithfulReply;
      ghost var here := Now(Asking(current), Waiting);
      page, poller, taken := None, here.poller, [];
      RunNothing(here, limit);
      if current.Some? {
        if !reply.Page? || !FaithfulReply(list, log, current.value, reply.upto, reply.reported, reply.recorded) {
          return;
        }
        gone := gone + reply.recorded;
        var token := current.value.(at := reply.upto);
        poller, taken := Paging(reply.reported, token, reply.more),
          [ChangesReply(reply.upto, reply.reported, reply.recorded, reply.more)];
        ReplyStep(here, limit, reply, Now(Resting, Waiting));
        RunOne(here, limit, taken[0]);
        if reply.fetched || reply.reported == [] {
          page := Some(PageInHand(reply.reported, token, reply.more));
        }
      } else {
        if !reply.Boot? {
          return;
        }
        var ids := list[..Min(limit, |list|)];
        if |ids| == limit && reply.stored {
          position := Some(limit);
        }
        BootRun(here, limit, reply.stored);
        poller, taken := ReadingState(ids), [QueryReply, SavePosition(reply.stored)];
        if !reply.stateRead {
          return;
        }
        StateRun(Now(poller, Waiting), limit);
        Snoc(here, limit, taken, StateReply);
        var token := Token(|log|, |log|);
        poller, taken := Paging(ids, token, false), taken + [StateReply];
        if reply.fetched || ids == [] {
          page := Some(PageInHand(ids, token, false));
        }
      }
    }
  }

  /** Every turn reads the position if it sees a token. */
  ghost predicate Readable(turns: seq<Turn>) {
    forall turn | turn in turns :: turn.changesRead ==> turn.positionRead
  }

  /** Each mail of the poll was taken up, or the answers that are left still hand it on. */
  ghost predicate Owes(box: Mailbox, own: Option<string>, reset: bool, books: Books, gone: set<Id>,
                       start: Option<Token>, replies: seq<Reply>, current: Option<Token>, left: seq<Reply>,
                       oracle: Id -> Mail)
  {
    forall id, at | Hands(box, reset, start, replies, id, at) ::
      Took(books, gone, box.list, own, id, at, oracle(id)) || Hands(box, reset, current, left, id, at)
  }

  lemma OwesAll(box: Mailbox, own: Option<string>, reset: bool, books: Books, gone: set<Id>, start: Option<Token>,
                replies: seq<Reply>, oracle: Id -> Mail)
    ensures Owes(box, own, reset, books, gone, start, replies, start, replies, oracle)
  {
  }

  lemma OwesNothing(box: Mailbox, own: Option<string>, reset: bool, books: Books, gone: set<Id>,
                    start: Option<Token>, replies: seq<Reply>, current: Option<Token>, left: seq<Reply>,
                    oracle: Id -> Mail)
    requires left == [] && Owes(box, own, reset, books, gone, start, replies, current, left, oracle)
    ensures forall id, at | Hands(box, reset, start, replies, id, at) ::
      Took(books, gone, box.list, own, id, at, oracle(id))
  {
    hide Took;
  }

  /** The mails of the page that was followed were taken up. */
  ghost predicate TookPage(books: Books, gone: set<Id>, list: seq<Id>, own: Option<string>, next: Followed,
                           oracle: Id -> Mail)
  {
    next.ToNext? || next.ToEnd? ==>
      forall id | id in next.page.ids :: Took(books, gone, list, own, id, next.page.token.at, oracle(id))
  }

  lemma OwesNext(box: Mailbox, own: Option<string>, reset: bool, before: Books, goneBefore: set<Id>, books: Books,
                 gone: set<Id>, start: Option<Token>, replies: seq<Reply>, current: Option<Token>, left: seq<Reply>,
                 oracle: Id -> Mail)
    requires Owes(box, own, reset, before, goneBefore, start, replies, current, left, oracle)
    requires left != [] && Adds(before, books) && goneBefore <= gone
    requires TookPage(books, gone, box.list, own, Follows(box, reset, current, left[0]), oracle)
    ensures
      var next := Follows(box, reset, current, left[0]);
      if next.Anew? then Owes(box, own, reset, books, gone, start, replies, None, left[1..], oracle)
      else if next.ToNext?
      then Owes(box, own, reset, books, gone, start, replies, Some(next.page.token), left[1..], oracle)
      else forall id, at | Hands(box, reset, start, replies, id, at) ::
             Took(books, gone, box.list, own, id, at, oracle(id))
  {
    hide Took, Adds, Follows;
    var next := Follows(box, reset, current, left[0]);
    forall id, at | Hands(box, reset, start, replies, id, at)
      ensures
        || Took(books, gone, box.list, own, id, at, oracle(id))
        || (next.Anew? && Hands(box, reset, None, left[1..], id, at))
        || (next.ToNext? && Hands(box, reset, Some(next.page.token), left[1..], id, at))
    {
      if Took(before, goneBefore, box.list, own, id, at, oracle(id)) {
        TookStays(before, books, goneBefore, gone, box.list, own, id, at, oracle(id));
      } else {
        assert Hands(box, reset, current, left, id, at);
      }
    }
  }

  lemma EndsWithout(box: Mailbox, reset: bool, kept: Option<Token>, current: Option<Token>)
    ensures Ends(box, reset, kept, current, []) == PollEnd(kept, None)
  {
  }

  lemma NoticesWithout(box: Mailbox, reset: bool, current: Option<Token>, was: Notes)
    ensures Notices(box, reset, current, [], was) == was
  {
  }

  lemma NoticesNext(box: Mailbox, reset: bool, current: Option<Token>, left: seq<Reply>, was: Notes)
    requires left != []
    ensures Notices(box, reset, current, left, was) ==
      var next, now := Follows(box, reset, current, left[0]), Noted(box, current, left[0], was);
      if next.Anew? then Notices(box, reset, None, left[1..], now)
      else if next.ToNext? then Notices(box, reset, Some(next.page.token), left[1..], now)
      else now
  {
    hide Follows, Noted;
  }

  lemma EndsNext(box: Mailbox, reset: bool, kept: Option<Token>, current: Option<Token>, left: seq<Reply>)
    requires left != []
    ensures Ends(box, reset, kept, current, left) ==
      var next := Follows(box, reset, current, left[0]);
      if next.Anew? then Ends(box, reset, None, None, left[1..])
      else if next.ToNext? then Ends(box, reset, kept, Some(next.page.token), left[1..])
      else PollEnd(kept, if next.ToEnd? then Some(next.page.token) else None)
  {
  }

  /** Where the poller stands once its token was read. */
  function Asking(current: Option<Token>): Poller {
    if current.Some? then AskingChanges(current.value) else Querying
  }

  lemma AddsNothing(books: Books)
    ensures Adds(books, books)
  {
  }

  lemma BatchIsNext(list: seq<Id>, p: nat, limit: nat)
    ensures
      var n := if p <= |list| then Min(limit, |list| - p) else 0;
      |BatchAt(list, p, limit)| == n && forall i | 0 <= i < n :: BatchAt(list, p, limit)[i] == list[p + i]
  {
  }

  lemma WorkingBegins(turns: seq<Turn>)
    ensures Working(turns[..0]) == 0
  {
  }

  /** A turn that works counts for one full batch. */
  lemma WorkingGoesOn(turns: seq<Turn>, i: nat, limit: nat)
    requires i < |turns|
    ensures Working(turns[..i + 1]) == Working(turns[..i]) + (if turns[i].Works() then 1 else 0)
    ensures Working(turns[..i + 1]) * limit == Working(turns[..i]) * limit + (if turns[i].Works() then limit else 0)
  {
    assert turns[..i + 1][..i] == turns[..i];
  }

  lemma StopStep(s: State, limit: nat, stop: Step)
    requires s.walker.Waiting? && s.changes.Some?
    requires stop == PositionUnread || (stop == StartBatch && s.position.None?)
    ensures Next(s, limit, stop) == s.(walker := Stopped)
  {
  }

  function BatchSteps(outcomes: seq<Outcome>): seq<Step> {
    seq(|outcomes|, i requires 0 <= i < |outcomes| => BatchNext(outcomes[i]))
  }

  lemma {:induction false} RunConcat(s: State, limit: nat, a: seq<Step>, b: seq<Step>)
    ensures Run(s, limit, a + b) == Run(Run(s, limit, a), limit, b)
    decreases |a|
  {
    hide Next;
    if a == [] {
      assert a + b == b;
    } else {
      assert (a + b)[1..] == a[1..] + b;
      RunConcat(Next(s, limit, a[0]), limit, a[1..], b);
    }
  }

  lemma RunOne(s: State, limit: nat, step: Step)
    ensures Run(s, limit, [step]) == Next(s, limit, step)
  {
    assert [step][1..] == [];
    assert Run(Next(s, limit, step), limit, []) == Next(s, limit, step);
  }

  lemma BatchSnoc(s: State, limit: nat, outcomes: seq<Outcome>, k: nat)
    requires k < |outcomes|
    ensures Run(s, limit, BatchSteps(outcomes[..k + 1])) ==
      Next(Run(s, limit, BatchSteps(outcomes[..k])), limit, BatchNext(outcomes[k]))
  {
    hide Next, Run;
    assert BatchSteps(outcomes[..k + 1]) == BatchSteps(outcomes[..k]) + [BatchNext(outcomes[k])];
    RunConcat(s, limit, BatchSteps(outcomes[..k]), [BatchNext(outcomes[k])]);
    RunOne(Run(s, limit, BatchSteps(outcomes[..k])), limit, BatchNext(outcomes[k]));
  }

  lemma RunNone(s: State, limit: nat)
    ensures Run(s, limit, BatchSteps([])) == s && Run(s, limit, []) == s
  {
    assert BatchSteps([]) == [];
  }

  /** The ids a batch request from `p` brings. */
  function BatchAt(list: seq<Id>, p: nat, limit: nat): seq<Id> {
    From(list, p)[..Min(limit, |From(list, p)|)]
  }

  /** The walk with a batch from `p` in hand. */
  function InHand(s: State, limit: nat, p: nat): State {
    var ids := BatchAt(s.list, p, limit);
    s.(walker := Batching(p, ids, p + |ids|, |ids| < limit || ids == [], |s.log|))
  }

  lemma StartRun(s: State, limit: nat)
    requires s.walker.Waiting? && s.position.Some?
    ensures Run(s, limit, [StartBatch, BatchReply]) == InHand(s, limit, s.position.value)
  {
    assert [StartBatch, BatchReply][1..] == [BatchReply];
    RunOne(Next(s, limit, StartBatch), limit, BatchReply);
    hide Run;
    assert Next(s, limit, StartBatch) == s.(walker := AskingBatch(s.position.value));
  }

  /** The step that ends a turn; `saved` tells whether the position was written or, at the end, deleted. */
  function RoundEnd(round: Round, saved: bool): Step {
    if round.Retried? then BatchFails else if round.Ended? && !saved then EndKeepsPosition else FinishBatch
  }

  /** The steps of one turn: how far it got, and how it ended. */
  function RoundSteps(asked: bool, fetched: bool, end: Step, outcomes: seq<Outcome>): seq<Step> {
    if !asked then [StartBatch, BatchFails]
    else if !fetched then [StartBatch, BatchReply, BatchFails]
    else [StartBatch, BatchReply] + BatchSteps(outcomes) + [end]
  }

  lemma AskFailsRun(s: State, limit: nat)
    requires s.walker.Waiting? && s.position.Some?
    ensures Run(s, limit, [StartBatch, BatchFails]) == s
  {
    assert [StartBatch, BatchFails][1..] == [BatchFails];
    RunOne(Next(s, limit, StartBatch), limit, BatchFails);
    hide Run;
    assert Next(s, limit, StartBatch) == s.(walker := AskingBatch(s.position.value));
  }

  lemma FetchFailsRun(s: State, limit: nat)
    requires s.walker.Waiting? && s.position.Some?
    ensures Run(s, limit, [StartBatch, BatchReply, BatchFails]) == s
  {
    assert [StartBatch, BatchReply] + [BatchFails] == [StartBatch, BatchReply, BatchFails];
    StartRun(s, limit);
    Snoc(s, limit, [StartBatch, BatchReply], BatchFails);
    hide Run;
  }

  /** A round whose request or fetch failed. */
  lemma FailedRoundRun(s: State, limit: nat, asked: bool, fetched: bool, end: Step, outcomes: seq<Outcome>)
    requires s.walker.Waiting? && s.position.Some? && !(asked && fetched)
    ensures Run(s, limit, RoundSteps(asked, fetched, end, outcomes)) == s
  {
    AskFailsRun(s, limit);
    FetchFailsRun(s, limit);
    hide Run;
  }

  /** A round of the walk: the request, its mails, then its end. */
  lemma RoundRun(s: State, limit: nat, outcomes: seq<Outcome>, end: Step)
    requires s.walker.Waiting? && s.position.Some?
    ensures Run(s, limit, RoundSteps(true, true, end, outcomes)) ==
      Next(Run(InHand(s, limit, s.position.value), limit, BatchSteps(outcomes)), limit, end)
  {
    hide Run, Next, InHand, BatchSteps;
    var steps := BatchSteps(outcomes);
    RunConcat(s, limit, [StartBatch, BatchReply], steps);
    StartRun(s, limit);
    Snoc(s, limit, [StartBatch, BatchReply] + steps, end);
  }

  lemma BatchEnds(s: State, limit: nat)
    requires s.walker.Batching? && s.walker.todo == []
    ensures Next(s, limit, FinishBatch) ==
      if s.walker.last then s.(position := None, walker := Stopped)
      else s.(position := Some(s.walker.next), walker := Waiting)
    ensures Next(s, limit, BatchFails) == s.(walker := Waiting)
    ensures s.walker.last ==> Next(s, limit, EndKeepsPosition) == s.(walker := Stopped)
  {
  }

  // ----- Pages of the poller -----------------------------------------------------------------

  function PageSteps(own: Option<string>, ids: seq<Id>, oracle: Id -> Mail): seq<Step> {
    seq(|ids|, i requires 0 <= i < |ids| => PollNext(OutcomeFor(own, oracle(ids[i]))))
  }

  lemma PageSnoc(s: State, limit: nat, own: Option<string>, ids: seq<Id>, oracle: Id -> Mail, k: nat)
    requires k < |ids|
    ensures Run(s, limit, PageSteps(own, ids[..k + 1], oracle)) ==
      Next(Run(s, limit, PageSteps(own, ids[..k], oracle)), limit, PollNext(OutcomeFor(own, oracle(ids[k]))))
  {
    hide Next, Run, OutcomeFor;
    assert PageSteps(own, ids[..k + 1], oracle) ==
      PageSteps(own, ids[..k], oracle) + [PollNext(OutcomeFor(own, oracle(ids[k])))];
    RunConcat(s, limit, PageSteps(own, ids[..k], oracle), [PollNext(OutcomeFor(own, oracle(ids[k])))]);
    RunOne(Run(s, limit, PageSteps(own, ids[..k], oracle)), limit, PollNext(OutcomeFor(own, oracle(ids[k]))));
  }

  lemma PageStart(s: State, limit: nat, own: Option<string>, oracle: Id -> Mail)
    ensures Run(s, limit, PageSteps(own, [], oracle)) == s
  {
    assert PageSteps(own, [], oracle) == [];
  }

  lemma Snoc(s: State, limit: nat, steps: seq<Step>, last: Step)
    ensures Run(s, limit, steps + [last]) == Next(Run(s, limit, steps), limit, last)
  {
    RunConcat(s, limit, steps, [last]);
    RunOne(Run(s, limit, steps), limit, last);
  }

  lemma PollStart(s: State, limit: nat)
    requires s.poller.Resting?
    ensures
      Next(s, limit, StartPoll) == s.(poller := if s.changes.Some? then AskingChanges(s.changes.value) else Querying)
  {
  }

  lemma ResetStep(s: State, limit: nat)
    requires s.poller.AskingChanges?
    ensures Next(s, limit, CannotCalculate) == s.(changes := None, poller := Querying)
  {
  }

  lemma ReplyStep(s: State, limit: nat, reply: Reply, s': State)
    requires s.poller.AskingChanges? && reply.Page?
    requires s' == s.(gone := s.gone + reply.recorded, poller := Resting)
    requires FaithfulReply(s.list, s.log, s.poller.token, reply.upto, reply.reported, reply.recorded)
    ensures Next(s, limit, ChangesReply(reply.upto, reply.reported, reply.recorded, reply.more)) ==
      s'.(poller := Paging(reply.reported, s.poller.token.(at := reply.upto), reply.more))
  {
  }

  lemma FinishStep(s: State, limit: nat)
    requires s.poller.Paging? && s.poller.todo == []
    ensures Next(s, limit, FinishPage) ==
      if s.poller.more then s.(poller := AskingChanges(s.poller.token))
      else s.(changes := Some(s.poller.token), poller := Resting)
  {
  }

  lemma FailStep(s: State, limit: nat)
    ensures Next(s, limit, PollFails) == s.(poller := Resting)
  {
  }

  /** The steps of a bootstrap up to its state read. */
  lemma BootRun(s: State, limit: nat, stored: bool)
    requires s.poller.Querying?
    ensures
      var page := s.list[..Min(limit, |s.list|)];
      Run(s, limit, [QueryReply, SavePosition(stored)]) ==
        s.(position := if |page| == limit && stored then Some(limit) else s.position, poller := ReadingState(page))
  {
    var s1 := Next(s, limit, QueryReply);
    assert [QueryReply, SavePosition(stored)][1..] == [SavePosition(stored)];
    RunOne(s1, limit, SavePosition(stored));
    hide Run;
  }

  lemma StateRun(s: State, limit: nat)
    requires s.poller.ReadingState?
    ensures Next(s, limit, StateReply) == s.(poller := Paging(s.poller.page, Token(|s.log|, |s.log|), false))
  {
  }

  lemma RunNothing(s: State, limit: nat)
    ensures Run(s, limit, []) == s
  {
  }
}
