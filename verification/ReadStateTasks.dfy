/**
 * The handlers of the read state as the source writes them, each run undisturbed
 * with calls that may fail; what they do is a run of the steps that `ReadState`
 * lets interleave.
 */
module ReadStateTasks {
  import opened Wrappers
  import opened ReadState
  import opened Store

  /** How the calls of `sync_read_state` go. */
  datatype MirrorCalls = MirrorCalls(gateRead: bool, resolved: bool, sent: bool, cleared: bool, stored: bool)

  function MirrorSteps(task: Task, email: Email, c: MirrorCalls): seq<Step> {
    [if !c.resolved || !c.sent then MirrorFails(task, email)
     else if c.gateRead then Mirror(task, email) else MisreadGate(task, email),
     if c.cleared then ClearFlag(task) else ClearFlagFails(task),
     if c.stored then SaveGate(task) else GiveUp(task),
     if c.stored then DropGate(task) else GiveUp(task)]
  }

  /** How the calls of `sync_marked_unread` go. */
  datatype FlagCalls = FlagCalls(gateRead: bool, found: bool, session: bool, unseen: bool, stored: bool)

  /** Whether an action fails before it has changed anything. */
  predicate FlagFails(action: UnreadAction, c: FlagCalls) {
    match action
    case NoOp => false
    case ClearGate => !c.stored
    case MarkUnseen => !c.found || !c.session || !c.unseen
  }

  function FlagSteps(gated: bool, unread: bool, c: FlagCalls): seq<Step> {
    [if FlagFails(UnreadActionFor(c.gateRead && gated, unread), c) then ApplyFlagFails
     else if c.gateRead then ApplyFlag else MisreadFlagGate,
     if c.stored then SaveFlagGate else SaveFlagGateFails]
  }

  /** A read receipt of a managed user on a bridged mail, and whether marking the mail works. */
  datatype Receipt = Receipt(email: Email, works: bool)

  function ReceiptStep(r: Receipt, reached: bool, last: bool): Step {
    if r.works && reached then DeliverReceipt(r.email, last) else ReceiptFails(r.email, last)
  }

  /** The steps for a list of receipts of which the handler gets to the first `reached`. */
  function ReceiptSteps(content: seq<Receipt>, reached: nat, last: bool): seq<Step> {
    seq(|content|, i requires 0 <= i < |content| => ReceiptStep(content[i], i < reached, last))
  }

  predicate Distinct(content: seq<Receipt>) {
    forall i, j | 0 <= i < j < |content| :: content[i].email != content[j].email
  }

  /** What the handlers read and write: `$seen` on the server, the flag of the room, the two gates, the receipts. */
  class Bridge {
    var seen: set<Email>
    var synced: set<Email>
    var marked: bool
    var gated: bool
    var receipts: set<Email>

    constructor ()
      ensures Now() == Room({}, {}, false, false, {}, Reader(map[], Idle), Reader(map[], Idle), None, SyncIdle)
    {
      seen, synced, marked, gated, receipts := {}, {}, false, false, {};
    }

    /** The room between two handlers. */
    function Now(): Room reads this {
      Room(seen, synced, marked, gated, receipts, Reader(map[], Idle), Reader(map[], Idle), None, SyncIdle)
    }

    /** `sync_read_state` for a mail that this task fetched with this `$seen`. */
    method SyncReadState(t: ReadState.Thread, task: Task, email: Email, fetchedSeen: bool, c: MirrorCalls)
      modifies this`synced, this`marked, this`receipts
      ensures Now() == Run(t, WithReader(old(Now()), task, Reader(map[email := fetchedSeen], Idle)),
        MirrorSteps(task, email, c))
      ensures
        var acts := fetchedSeen != (c.gateRead && email in old(synced)) && c.resolved && c.sent;
        && receipts == (if acts && fetchedSeen then old(receipts) + {email} else old(receipts))
        && marked == (if acts then !fetchedSeen || (old(marked) && !c.cleared) else old(marked))
        && synced == (if !acts || !c.stored then old(synced)
                      else if fetchedSeen then old(synced) + {email} else old(synced) - {email})
    {
      MirrorRun(t, Now(), task, email, fetchedSeen, c);
      var syncedRead := c.gateRead && email in synced;
      if fetchedSeen == syncedRead {
        return;
      }
      if !c.resolved {
        return;
      }
      if fetchedSeen {
        if !c.sent {
          return;
        }
        receipts := receipts + {email};
        if c.cleared {
          marked := false;
        }
        if c.stored {
          synced := synced + {email};
        }
      } else {
        if !c.sent {
          return;
        }
        marked := true;
        if c.stored {
          synced := synced - {email};
        }
      }
    }

    /** `sync_marked_unread` for a flag as a `/sync` response carried it; the mail comes from the rows of the store. */
    method SyncMarkedUnread(rows: Rows, emails: set<Email>, room: string, unread: bool, c: FlagCalls)
      returns (ghost latest: Option<Email>)
      modifies this`seen, this`gated
      ensures MayBeLatest(rows.threads, rows.messages, room, latest)
      ensures Now() == Run(ReadState.Thread(emails, latest), old(Now()).(flagRead := Some(unread)),
        FlagSteps(old(gated), unread, c))
      ensures
        var marks := unread && !(c.gateRead && old(gated)) && c.found && c.session && c.unseen && latest.Some?;
        && seen == (if marks then old(seen) - {latest.value} else old(seen))
        && gated == (if !unread && c.gateRead && c.stored then false else old(gated) || (marks && c.stored))
    {
      ghost var was := Now();
      latest := SomeLatest(rows.threads, rows.messages, room);
      hide Run, FlagSteps, MayBeLatest;
      match UnreadActionFor(c.gateRead && gated, unread) {
        case NoOp =>
        case ClearGate =>
          if c.stored {
            gated := false;
          }
        case MarkUnseen =>
          if c.found {
            var email := rows.GetLatestEmailIdByRoom(room);
            latest := email;
            if email.Some? && c.session && c.unseen {
              seen := seen - {email.value};
              if c.stored {
                gated := true;
              }
            }
          }
      }
      FlagRun(ReadState.Thread(emails, latest), was, unread, c);
    }

    /** `handle_receipt` for the read receipts of one transaction; a failing lookup drops those behind it. */
    method HandleReceipt(t: ReadState.Thread, content: seq<Receipt>, reached: nat, last: bool)
      requires Distinct(content) && forall r | r in content :: r.email in receipts
      modifies this`seen, this`receipts
      ensures Now() == Run(t, old(Now()), ReceiptSteps(content, reached, last))
      ensures forall e :: e in seen <==>
        e in old(seen) || exists i :: 0 <= i < |content| && i < reached && content[i].works && content[i].email == e
      ensures forall e :: e in receipts <==>
        e in old(receipts) && !(last && exists i :: 0 <= i < |content| && content[i].email == e)
    {
      ghost var was := Now();
      ghost var steps := ReceiptSteps(content, reached, last);
      assert steps[..0] == [];
      for i := 0 to |content|
        invariant Now() == Run(t, was, steps[..i])
        invariant forall j | i <= j < |content| :: content[j].email in receipts
        invariant forall e :: e in seen <==>
          e in old(seen) || exists j :: 0 <= j < i && j < reached && content[j].works && content[j].email == e
        invariant forall e :: e in receipts <==>
          e in old(receipts) && !(last && exists j :: 0 <= j < i && content[j].email == e)
      {
        hide Run;
        assert steps[..i + 1] == steps[..i] + [steps[i]];
        RunSnoc(t, was, steps[..i], steps[i]);
        if i < reached && content[i].works {
          seen := seen + {content[i].email};
        }
        if last {
          receipts := receipts - {content[i].email};
        }
      }
      assert steps[..|content|] == steps;
    }
  }

  lemma {:induction false} RunSnoc(t: ReadState.Thread, s: Room, steps: seq<Step>, last: Step)
    ensures Run(t, s, steps + [last]) == Next(t, Run(t, s, steps), last)
  {
    RunConcat(t, s, steps, [last]);
    RunOne(t, Run(t, s, steps), last);
  }

  /** What one undisturbed mirroring of a mail does. */
  function Mirrored(s: Room, email: Email, fetchedSeen: bool, c: MirrorCalls): Room {
    if !c.resolved || !c.sent || fetchedSeen == (c.gateRead && email in s.synced) then s
    else if fetchedSeen then
      s.(receipts := s.receipts + {email}, marked := s.marked && !c.cleared,
         synced := if c.stored then s.synced + {email} else s.synced)
    else s.(marked := true, synced := if c.stored then s.synced - {email} else s.synced)
  }

  /** The mail as the task has taken it up. */
  function TakenUp(s: Room, task: Task, email: Email, fetchedSeen: bool): Room {
    var r := WithReader(s, task, Reader(map[], if fetchedSeen then ClearFlagNext(email) else DropGateNext(email)));
    if fetchedSeen then r.(receipts := s.receipts + {email}) else r.(marked := true)
  }

  lemma MirrorRun(t: ReadState.Thread, s: Room, task: Task, email: Email, fetchedSeen: bool, c: MirrorCalls)
    requires ReaderOf(s, task) == Reader(map[], Idle)
    ensures
      Run(t, WithReader(s, task, Reader(map[email := fetchedSeen], Idle)), MirrorSteps(task, email, c))
      == Mirrored(s, email, fetchedSeen, c)
  {
    var s0 := WithReader(s, task, Reader(map[email := fetchedSeen], Idle));
    var steps := MirrorSteps(task, email, c);
    MirrorStart(t, s, task, email, fetchedSeen, c);
    RunFour(t, s0, steps[0], steps[1], steps[2], steps[3]);
    hide Run;
    if !c.resolved || !c.sent || fetchedSeen == (c.gateRead && email in s.synced) {
      IdleStays(t, s, task, steps[1..]);
    } else {
      MirrorEnd(t, TakenUp(s, task, email, fetchedSeen), task, email, c);
      hide Next;
    }
  }

  lemma MirrorStart(t: ReadState.Thread, s: Room, task: Task, email: Email, fetchedSeen: bool, c: MirrorCalls)
    requires ReaderOf(s, task) == Reader(map[], Idle)
    ensures
      Next(t, WithReader(s, task, Reader(map[email := fetchedSeen], Idle)), MirrorSteps(task, email, c)[0]) ==
        if !c.resolved || !c.sent || fetchedSeen == (c.gateRead && email in s.synced) then s
        else TakenUp(s, task, email, fetchedSeen)
  {
    assert map[email := fetchedSeen] - {email} == map[];
  }

  lemma IdleStays(t: ReadState.Thread, s: Room, task: Task, steps: seq<Step>)
    requires ReaderOf(s, task).at.Idle?
    requires forall step | step in steps ::
      step in {ClearFlag(task), ClearFlagFails(task), SaveGate(task), DropGate(task), GiveUp(task)}
    ensures forall step | step in steps :: Next(t, s, step) == s
  {
  }

  lemma MirrorEnd(t: ReadState.Thread, s: Room, task: Task, email: Email, c: MirrorCalls)
    requires ReaderOf(s, task).at in {ClearFlagNext(email), DropGateNext(email)}
    ensures
      var steps := MirrorSteps(task, email, c);
      var asRead := ReaderOf(s, task).at.ClearFlagNext?;
      Next(t, Next(t, Next(t, s, steps[1]), steps[2]), steps[3]) ==
        MoveTo(s, task, Idle).(
          marked := s.marked && !(asRead && c.cleared),
          synced := if !c.stored then s.synced else if asRead then s.synced + {email} else s.synced - {email})
  {
  }

  lemma RunFour(t: ReadState.Thread, s: Room, a: Step, b: Step, c: Step, d: Step)
    ensures Run(t, s, [a, b, c, d]) == Next(t, Next(t, Next(t, Next(t, s, a), b), c), d)
  {
    hide Next;
    assert [a, b, c, d][1..] == [b, c, d];
    RunThree(t, Next(t, s, a), b, c, d);
  }

  /** What one undisturbed handling of the flag does. */
  function Flagged(s: Room, latest: Option<Email>, unread: bool, c: FlagCalls): Room {
    var action := UnreadActionFor(c.gateRead && s.gated, unread);
    if FlagFails(action, c) || action.NoOp? then s
    else if action.ClearGate? then s.(gated := false)
    else if latest.None? then s
    else s.(seen := s.seen - {latest.value}, gated := s.gated || c.stored)
  }

  lemma FlagRun(t: ReadState.Thread, s: Room, unread: bool, c: FlagCalls)
    requires s.syncer.SyncIdle? && s.flagRead.None?
    ensures Run(t, s.(flagRead := Some(unread)), FlagSteps(s.gated, unread, c)) == Flagged(s, t.latest, unread, c)
  {
    var s0, steps := s.(flagRead := Some(unread)), FlagSteps(s.gated, unread, c);
    assert Next(t, Next(t, s0, steps[0]), steps[1]) == Flagged(s, t.latest, unread, c);
    hide Run, Next;
    assert steps == [steps[0]] + [steps[1]];
    RunSnoc(t, s0, [steps[0]], steps[1]);
    RunOne(t, s0, steps[0]);
  }
}
