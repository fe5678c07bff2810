# A verified model of the JMAP to Matrix bridge

The bridge keeps a user's mailbox, reached over JMAP, and the user's Matrix rooms
in step: it posts mail into rooms, sends messages as mail, mirrors read state both
ways and turns HTML mail into text a Matrix client can show. This project models
its protocols and its text engine in Dafny and proves what they keep.

**Synchronisation.** `ReadState` is the read state of one room: the poller and the
backfill walk, each mirroring from data it fetched before, the receipt handler and the
`/sync` loop, as steps that fail, repeat and interleave with crashes, tied together by
two stored gates; `ReadStateLimits` has, for every case in which the room can settle
elsewhere, the run that does. `ReadStateEcho` says in which rooms the bridge answers
itself without end, `ReadStateSolo` and `ReadState` why it stops in all others, and
`ReadStateEndless` has the runs that do not stop. In these the poller and the walk may
fetch any mail. `ReadStateFeed` gives them only what is reported or ahead, with the
reports that failing calls lose; `ReadStateSettling` says when such a room can still
settle, and `ReadStateFeedLimits` carries the exact conditions over.

`Ingest` is the bootstrap page, the positional walk and the `Email/changes` loop over a
server that is an ordered list and a change log. `CreationLock` is the double-checked
creation of rooms and spaces under lock rows; `TransactionClaim` the claim, processing
and release of Matrix transactions. Each of
these protocols is a state machine over the single store and network operations of its
tasks, and its results hold in every interleaving. The handlers themselves are methods
and loops over the rows they change, each call failing or not. Each is proved to be a run
of those steps and says outright what it returns and stores for which outcome of its
calls: `ReadStateTasks`, `IngestTasks`, `CreationTasks` and
`TransactionClaim.HandleTransaction`. `PollReplies` says what a poll comes to from the
server's answers alone. `Store` holds the rows that creation and read
state share and the lookups over them.

**Outbound queue.** `OutboundQueue` is the table as a class with the operations of
the store and the worker's pass; `OutboundRuns` lets users and worker interleave
over it in runs of any length, and `OutboundEndings` says when a row leaves the table
for good.

**Text engine.** The source's index loops are methods over the text, proved against
specifications of another kind: `ImageChrome` against a declarative classification
of tokens, `ReplyQuotes` and `PruneEmpty` against recursive functions on forests,
`CollapseBlanks`, `CollapseBreaks` and `NormalizePlain` against normal forms,
`QuotedReply`, `Localpart` and `Clamp` against what the printed text must mean to
its reader. Beside these stand laws about texts as people write them, in terms of
neither loop nor specification: `TagReading`, `ImageReading`, `ImageTags` and
`ImagePlaces` for tags, their names, attributes and places, `PlainParagraphs` for lines
and blank lines, `QuoteReading` for the printed quote. `Text` and `PlainLines` hold the
string primitives they share.

Read each row of the table as a statement over all inputs, all runs or all reachable
states. Where a promise of the source's comments is not kept, the code is modelled as
it is and a member says exactly when the promise holds:

- the echo gate makes read state converge where the user asked only under conditions on
  the room before the action (`ReadStateLimits.SettlesInTargetIffCertain`): no receipt
  still under way for a mail the action leaves unread; while the walk mirrors beside the
  poller, no affected mail in a batch fetched before and no change that comes later than
  the action; and, where calls fail, the receipt of the user, the clearing of the flag
  and the reads of the gates must not be among the failing ones in the cases named
  there. Marking a room unread needs a latest event that is a mail;
- the gate is said to break the cycle of reads and receipts. It does so exactly in the
  rooms that do not echo (`ReadStateEndless.EchoIsBrokenIff`). Marking the latest mail of
  an unmarked room unread while its receipt is under way sets off an echo without end in
  which no call fails (`ReadStateFeedLimits.UnreadLatestEchoes`); a second reader with
  another view of a mail, and gates that cannot be read, set off others;
- a handler whose call fails is not run again. The room can still settle exactly if no
  mail and no flag is lost (`ReadStateSettling.CanSettleIffNothingLost`), and for each
  failing call a member says when it loses one;
- a lock row whose release was not stored keeps every later mail of its thread waiting
  until a restart (`CreationLock.CanBeAcquiredIffOwned`);
- the walk reaches every mail unless a mail in front of its position is deleted, one
  arrives behind it between a bootstrap's query and its state read, a bootstrap fails to
  store its position or stores it while a batch is in flight or the walk has ended, or a
  stored position cannot be read; for each, wherever walk and bootstrap stand, there is an
  exact condition;
- a delivery answered with success because another holds the claim is a promise exactly
  if nobody is at work on the transaction any more and nobody left it behind, by a
  restart or a release that was not stored;
- a cancelled message is still sent when the worker's snapshot holds it;
- markers match loadable images one to one only if each marked image is the first with
  its `src`;
- pruning stops after 32 passes; a last break before trailing blanks survives, and then
  collapsing is not idempotent; localparts tell lower-case addresses apart exactly below
  U+0201, and `aʰ@x` shares its ghost with `a+0@x`; the size clamp can pass its budget
  by the length of its notice;
- the comment on image strips says that only whitespace and `<br>` may stand between two
  links; in the code the next link's open tag, its image and stray `</a>` tags may too.

## Model

| member | source | states |
|---|---|---|
| `ReadStateLimits.SettlesInTargetIffCertain` | src/sync/email.rs:341-422 | after one user action from a settled room, in any setting of running tasks and failing calls, every run that settles does so in the one target of the action if and only if the room meets six conditions that can be read off before the action: none stale under way, none stale fetched while two tasks mirror, nothing changed late, and for each kind of failing call that matters no use of it; beside a running walk the runs that settle elsewhere are those of a room whose mails the walk has yet to come to |
| `ReadState.SettlesInTarget` | src/sync/email.rs:341-422 | under those conditions every run of poller, walk, receipt and `/sync` steps, in any order and with repeats, failing calls and crashes, that settles does so in one state, which the action alone determines |
| `ReadStateEndless.EchoIsBrokenIff` | src/sync/email.rs:336-340 | in any setting of running tasks and failing calls, the runs after one user action change `$seen`, flag and gates a bounded number of times, and then at most seventy, if and only if the room does not echo: no receipt under way for a mail the action leaves unread meets an unmarked room with its latest mail read; with that mail read or to be read, no second reader holds or can come to hold another view of a mail than the gate will have, and no receipt is stale beside it; a misread read gate has no mail to take for newly read beside one that became unread; and a misread flag gate has no mark to apply again while something reads the latest mail or another one |
| `ReadStateEndless.EchoHasNoEnd` | src/sync/email.rs:336-340 | in every room that echoes, for every number, some possible run changes the persistent state that often: stale receipts, a second reader and misread gates each lead into one of two circles |
| `ReadStateEndless.Turn` | src/sync/email.rs:336-340 | each turn of either circle, the mark taking the latest mail away while a receipt brings it back, or one mail mirrored as read and another as unread with neither gate written, is possible, changes something and can be repeated |
| `ReadStateEcho.QuietRoomIsBounded` | src/sync/email.rs:336-340 | in every room that does not echo no run, in whatever order, with repeats, failing calls and crashes, has more than seventy effective steps |
| `ReadStateSolo.StepPays` | src/sync/email.rs:341-422 | where a single mail can still move, and back at most once, every step of every task that changes the persistent state lowers a rank that starts at seventy at most |
| `ReadState.EchoCycleIsBroken` | src/sync/email.rs:336-340 | after one user action that no step can turn back (no receipt or fetch stale, no gate misread), no run, however long and whatever fails, changes `$seen`, flag or gates more than five times |
| `ReadStateFeed.MovesAreRun` | src/sync/email.rs:71-214 | the poller that fetches only what `Email/changes` reports since its stored token, the walk that comes only to what is ahead of its position and the `/sync` loop that hears of the flag only after a change or a restart do nothing the wider step system does not |
| `ReadStateFeedLimits.RunIsMoves` | src/sync/email.rs:71-214 | every run of the wider step system is a run of a poller that waits for reports and a walk that moves ahead, effective step for effective step, given that other changes report a mail again, a client sets the flag to what it is, and the walk has yet to come to the mails it fetches |
| `ReadStateFeedLimits.FeedEchoIsBrokenIff` | src/sync/email.rs:336-340 | with a poller that waits for reports and a walk that moves ahead, the changes after one action are bounded in the same rooms and by the same seventy, and have no bound in all others if the walk, where it runs, has yet to come to the mails of the room |
| `ReadStateFeedLimits.FeedSettlesInTargetIffCertain` | src/sync/email.rs:341-422 | with a poller that waits for reports and a walk that moves ahead, every run that settles does so in the target under the same six conditions, and under no others if the walk, where it runs, has yet to come to the mails of the room |
| `ReadStateFeedLimits.UnreadLatestEchoes` | src/sync/email.rs:336-340 | when the latest mail of an unmarked room is marked unread in the mail client while its receipt is under way, working deliveries of reported changes alone change mail, flag and gates without end: no call fails and nothing restarts |
| `ReadStateSettling.CanSettleIffNothingLost` | src/sync/email.rs:364-419 | after one user action that nothing turns back and any run, with any calls failing: working deliveries can settle the room if and only if every mail whose gate differs is still reported, ahead of the walk or in a handler's hands, and so is the flag; otherwise no run settles it that has no restart, no repeated page and no news of the mail |
| `ReadStateSettling.EveryRunCanSettleIffNothingLost` | src/sync/email.rs:364-419 | after one user action whose target is certain and any run, with any calls failing: working deliveries can settle the room in the target if and only if no mail and no flag was lost |
| `ReadStateSettling.CanAlwaysSettle` | src/puppet.rs:266-269 | from every state whatever, a restart, one more report of each mail whose change nobody will bring, and deliveries settle the room |
| `ReadStateSettling.SettledIffNothingPending` | src/puppet.rs:272-313 | with nobody at work, the room is settled if and only if nothing was lost and no delivery from rest to rest changes anything |
| `ReadStateSettling.FailedReceiptIsForGood` | src/sync/email.rs:385-393 | a read receipt that cannot be sent loses the read for good in a room where nothing else is wrong: the token moves on and no run settles the room |
| `ReadStateFeed.DeliveryLosesNothing` | src/sync/email.rs:341-422 | no working delivery, by any task at any place, loses a mail or the flag |
| `ReadStateFeed.FailedMirrorLosesIff` | src/sync/email.rs:364-414 | a token, thread or event that is not found, or a first call that fails, loses the mail if and only if no report, no batch and no other handler brings it |
| `ReadStateFeed.MisreadGateLosesIff` | src/sync/email.rs:355-361 | a read gate that cannot be read loses a mail that became unread if and only if no report, no batch and no other handler brings it |
| `ReadStateFeed.UnwrittenGateLosesIff` | src/sync/email.rs:400-419 | a read gate that is not written after its mail was mirrored loses the mail if and only if no report, no batch and no other handler brings it |
| `ReadStateFeed.FailedFlagLosesIff` | src/puppet.rs:298-311 | a mark that cannot be applied, or a gate that cannot be deleted, loses the flag if and only if it has not changed again |
| `ReadStateFeed.MisreadFlagGateLosesIff` | src/puppet.rs:291-296 | a flag gate that cannot be read loses a cleared flag if and only if it has not changed again |
| `ReadStateFeed.UnwrittenFlagGateLosesIff` | src/puppet.rs:307-311 | a flag gate that is not written after the mark was applied loses the flag if and only if it has not changed again |
| `ReadStateFeed.RestartFindsAgainIff` | src/puppet.rs:266-269 | a restart finds every flag again, and a lost mail if and only if the stored token or position is still to pass it |
| `ReadStateFeed.RepeatedPageFindsAgainIff` | src/sync/email.rs:210-213 | a token that is not stored finds a lost mail again if and only if the page, or the walk, still holds it |
| `ReadState.StepStaysInCorridor` | src/sync/email.rs:341-422 | no step of any task, failing or not, takes a mail, flag or gate anywhere but from its start to its target |
| `ReadState.OneMailRoomObeysUser` | src/sync/email.rs:341-422 | in a room with one mail, under the conditions, mail client and Matrix client both end where the user asked, on either side |
| `ReadState.UnmappedLatestLosesMarkUnread` | src/puppet.rs:297-301 | when the latest event of the thread maps to no mail, marking the room unread never reaches a mail and the room never settles again, in any run with one mirroring task or two and failing calls, while the read gates can be read |
| `ReadStateLimits.StaleDeliveries` | src/services/transactions.rs:357-398 | receipts under way can all arrive: a run delivers and mirrors each and settles with their mails seen |
| `ReadStateLimits.FetchedEntryDiverts` | src/sync/backfill.rs:202-207 | a mail the action changes, still in a batch fetched before by either mirroring task, has a run that settles the room elsewhere |
| `ReadStateLimits.LateChangeDiverts` | src/sync/backfill.rs:202-207 | while the walk runs, an action that does not change every mail at once has a run that settles elsewhere |
| `ReadStateLimits.LostReceiptDiverts` | src/services/transactions.rs:386-391 | a failing call for the user's own receipt leaves the mail unread in a settled room |
| `ReadStateLimits.LostClearDiverts` | src/sync/email.rs:388-403 | a flag that could not be cleared while the gate was stored settles the room marked unread although its mail was read |
| `ReadStateLimits.GateReadsDivert` | src/sync/email.rs:355-361 | a read gate that cannot be read counts as unset, and a mail mirrored long ago clears the flag again |
| `ReadStateLimits.FlagReadsDivert` | src/puppet.rs:291-313 | a flag gate that cannot be read counts as unset, and a mark handled before makes a read mail unread again |
| `ReadStateTasks.Bridge.SyncReadState` | src/sync/email.rs:341-422 | the mirroring handler, undisturbed and whichever of its calls fail: it sends a receipt or marks the room and writes the gate exactly if the fetched `$seen` differs from the gate as read and the calls before worked; it is a run of the protocol's steps from the state it starts in, for stale data too |
| `ReadStateTasks.Bridge.SyncMarkedUnread` | src/puppet.rs:284-313 | the `/sync` handler, with the latest mail looked up in the store: it takes `$seen` from that mail exactly if the room became unread, the gate did not say so and every call worked, and deletes the gate exactly if the room is no longer unread; it is a run of the protocol's steps |
| `ReadStateTasks.Bridge.HandleReceipt` | src/services/transactions.rs:357-398 | the loop over the receipts of a transaction marks exactly the mails it gets to and whose call works, and uses receipts up exactly on the last delivery; one step of the protocol per receipt, in order |
| `Ingest.ChangesTokenIsSafe` | src/sync/email.rs:71-214 | over every run of pages, failures, crashes, resets, arrivals, updates and deletions: a change between the bootstrap and the stored token was handed to `process_email` with data newer than it, or its mail is gone |
| `Ingest.EveryMailIsReached` | src/sync/backfill.rs:158-223 | over every orderly run, arrivals at any place, failing calls and crashes between any two steps included, no mail the token stands for is missed: it was handed to `process_email` or a walk that has not ended is still to reach it |
| `Ingest.PostsAtMostOnce` | src/sync/email.rs:260-329 | with each `process_email` uninterrupted, no run posts a mail twice |
| `Ingest.NeverPostsKnownMail` | src/store/threads.rs:214-233 | from any state and over any run, a mail mapped or recorded as destroyed is not posted again |
| `Ingest.DeletionIsSafeIffNotInFront` | src/sync/backfill.rs:147-152 | wherever the walk stands, with a batch asked for, in hand or none, a deletion leaves it every mail it has yet to reach if and only if it does not lie in front of the next index to ask for, or no mail lies there but one of the batch in hand |
| `Ingest.DeletionUnderBatchIsSafeIff` | src/sync/backfill.rs:73-78 | if the batch then fails, a deletion meanwhile was safe if and only if it was not in front of where the batch began, or the mail there was none the walk had to reach |
| `Ingest.GapDeletionIsSafeIff` | src/sync/email.rs:144-165 | a deletion between a full bootstrap page and its position write leaves everything off the page to the walk if and only if it is not in front of the page's end, or the mail there is on the page |
| `Ingest.GapArrivalIsReachedIffAhead` | src/sync/email.rs:167-186 | a mail that arrives between the bootstrap's position write and its state read is left to somebody if and only if it lands where the walk has yet to come |
| `Ingest.QueryArrivalIsReachedIffAhead` | src/sync/email.rs:144-186 | a mail that arrives between the bootstrap's query and its position write, with a full page or not and the position stored or not, is left to somebody if and only if it lands where the walk, as the write leaves it, has yet to come |
| `Ingest.FullPageIsWalkedIff` | src/sync/email.rs:147-165 | after a bootstrap with a full page the walk comes to everything behind it if and only if it has not ended and the position was stored or an older one in front stands |
| `Ingest.RaceKeepsPageIff` | src/sync/email.rs:147-165 | a position stored while a batch is in flight keeps everything behind the page reachable if and only if the batch is not the last and ends no further than the page; in the other order, if and only if it is not the last |
| `Ingest.EndedWalkStaysEnded` | src/sync/backfill.rs:42-46 | a walk that has ended comes to no mail any more over every run without a restart, whatever position is stored |
| `Ingest.RestartResumesIff` | src/sync/backfill.rs:16-62 | a restart comes to every mail from an index on if and only if the stored position is at or before it |
| `Ingest.UnreadPositionKeepsWalkIff` | src/sync/backfill.rs:30-46 | a position that cannot be read ends the walk unless no token is stored yet |
| `Ingest.RunKeepsTokenInv` | src/sync/email.rs:71-214 | the token invariant is kept by every step of every task and of the server |
| `IngestTasks.Account.ProcessEmail` | src/sync/email.rs:260-329 | a mail is mapped afterwards exactly if it was, or if the server gave it, posting works, it is not recorded as destroyed, and it has a sender who is not the user ignoring case; exactly mail bridged before or now goes on to the read mirror; the same as the step the protocol takes |
| `IngestTasks.SameAddressIff` | src/sync/email.rs:15-17 | a sender is the user exactly if the two addresses differ at most in the case of ASCII letters |
| `IngestTasks.Account.BackfillRound` | src/sync/backfill.rs:158-223 | a turn of the walk retries exactly if the request, a needed fetch or the write of the position failed, ends exactly on a batch that is not full, and otherwise moves the position past the batch; every mail of a batch that came was taken up; a run of the protocol's steps |
| `IngestTasks.Account.RunBackfillLoop` | src/sync/backfill.rs:16-62 | over any turns with any calls failing, every mail from the stored position up to the present one was taken up, and all to the end of the list once the walk has ended, unless a read of the position fails; it ends at the latest when the turns in which every call works cover the mails left |
| `IngestTasks.Account.ProcessBatch` | src/sync/backfill.rs:203-207 | the loop over a batch is one step per mail, in order |
| `IngestTasks.Account.ProcessPage` | src/sync/email.rs:191-198 | the loop over a page is one step per mail, in order |
| `IngestTasks.Account.SyncEmails` | src/sync/email.rs:71-214 | the poll succeeds exactly if the store works and the server's answers lead to a token, which is then stored; on failure the stored token is the old one, or none after a reset; every mail of every page it came to was taken up with that page's state, and the position and the mails noted as destroyed are what the answers say; a run of the poller's steps |
| `PollReplies.PagesAreFollowed` | src/sync/email.rs:82-111 | fitting pages of changes whose mails came, all but the last with more to come, end the poll at the state of the last, and hand on every mail one of them reports with the state of its page |
| `PollReplies.PagesBreakOff` | src/sync/email.rs:82-111 | after any number of such pages an answer that is missing, does not fit or brings no mails fails the poll and leaves the stored token |
| `PollReplies.PagesAreNoted` | src/sync/email.rs:94-104 | such pages note exactly the mails they name as destroyed and leave the position of the walk alone |
| `PollReplies.BootEnds` | src/sync/email.rs:144-198 | a bootstrap that works ends the poll at the newest state and hands on its page; a full one starts the walk behind it |
| `PollReplies.ResetBoots` | src/sync/email.rs:112-142 | a token the server no longer knows is deleted and the poll goes on as a bootstrap; one that cannot be deleted fails the poll |
| `PollReplies.OnePageServes` | src/sync/email.rs:82-111 | from every stored token some answer of the server, a page of everything since, ends the poll at the newest state and hands on every change |
| `CreationLock.OneCreatorPerKey` | src/sync/email.rs:491-520 | in every interleaving of any number of tasks, with failing calls, dropped tasks and restarts, at most one task per key is past the lock |
| `CreationLock.ReleaseFreesOnlyItsOwn` | src/sync/email.rs:507-514 | a spawned release deletes only the row its own task inserted, and every holder still has its row afterwards |
| `CreationLock.MappingIsNeverOverwritten` | src/sync/email.rs:515-520 | no step gives a thread or a user that has a room another one; a thread loses its room only by unbridging it |
| `CreationLock.SpaceCallersAgree` | src/ghost.rs:126-157 | all callers that return a space for a user return the same, at any two moments of a run |
| `CreationLock.CanBeAcquiredIffOwned` | src/store/sync.rs:122-151 | in every reachable state the lock of a key without a room can be taken again without a restart if and only if its row is gone or has an owner: a task past the lock or a release still to run |
| `CreationLock.OrphanStays` | src/store/sync.rs:122-151 | a row without an owner stays over every run without a restart, nobody gets past it and the key never gets a room |
| `CreationLock.FailedReleaseOrphans` | src/sync/email.rs:507-514 | a release that is not stored leaves such a row |
| `CreationLock.RunKeepsInv` | src/store/sync.rs:122-151 | ownership of lock rows is exclusive in every reachable state |
| `TransactionClaim.OneHandlerPerTransaction` | src/routes.rs:116-159 | in every interleaving of deliveries at most one delivery of a transaction is processing it or about to release it |
| `TransactionClaim.BeginsOncePlusReleases` | src/routes.rs:138-156 | a transaction begins to be processed at most once more than it was released, and was released at most once per database error |
| `TransactionClaim.NeverAgainIffSettled` | src/store/sync.rs:68-91 | a transaction is certain not to be processed again, over every run, if and only if it is claimed and its owner has finished |
| `TransactionClaim.AcknowledgementIsPromiseIff` | src/routes.rs:116-159 | in every run an acknowledgement leaves the transaction processed to an end if and only if the delivery itself has just ended it, or nobody is at work on it any more and nobody left it behind |
| `TransactionClaim.AbandonedIsLost` | src/routes.rs:138-156 | a transaction left behind by a restart or by a release that was not stored is never processed to an end, over every run |
| `TransactionClaim.OwnerAtWorkDecides` | src/routes.rs:116-159 | while the owner of the claim is at work both are open: it may end well, or be dropped and the transaction lost |
| `TransactionClaim.AcknowledgedDuplicateCanBeLost` | src/routes.rs:125-129 | a duplicate acknowledged while the first delivery goes on to fail, or after a restart dropped it, is lost |
| `TransactionClaim.ClaimStore.Claim` | src/store/sync.rs:68-82 | inserts the claim and says whether it was absent |
| `TransactionClaim.ClaimStore.Unclaim` | src/store/sync.rs:84-91 | deletes the claim and no other |
| `TransactionClaim.HandleTransaction` | src/routes.rs:116-159 | the answer is success exactly if the claim was stored and the transaction was claimed before or did not end in a database error; the claim stays unless that error came and the release was stored; the handler is the four protocol steps of one delivery |
| `CreationTasks.TakeTurn` | src/sync/email.rs:495-504 | one turn of the waiting loop ends in the stored room, the lock, a wait or a failure exactly as the read, the rows and the insert decide; a run of the protocol's steps |
| `CreationTasks.CreateThread` | src/sync/email.rs:514-586 | under the lock: succeeds exactly if the thread is found, or created and committed, and the mail is posted, mapped and attached; maps this mail alone and touches no other thread; a mail posted with success is the latest mail of its room; a run of the protocol's steps that releases the lock whatever fails |
| `CreationTasks.EnsureEmailSpace` | src/ghost.rs:126-157 | returns the stored space of a user who has one, and for another creates, stores and returns one, unless a call fails or another holds the lock; adds that space and that lock row and nothing else; a run of the protocol's steps |
| `CreationTasks.RunRelease` | src/sync/email.rs:507-514 | the spawned release over the rows is the protocol's release step, stored or not |
| `CreationTasks.HolderEnds` | src/sync/email.rs:505-586 | whichever call of a holder fails, its release is spawned, the locks stay, and a room is stored exactly if it was found or created and saved |
| `CreationTasks.UnbridgeRoom` | src/store/threads.rs:161-171 | unbridging takes the threads of the room alone, as the protocol's step does; nothing is left to mark unread there, and every other room keeps its latest mails |
| `CreationTasks.ProcessReply` | src/sync/email.rs:424-474 | a reply keeps the room of every key, maps the mail only when its event was sent, and moves the latest event on |
| `Store.Rows.GetLatestEmailIdByRoom` | src/store/threads.rs:257-269 | returns a mail posted as the latest event of a thread of the room, and none exactly when there is none |
| `Store.LatestFollowsTheThread` | src/store/threads.rs:119-130 | in a room with one thread the latest mail is the new thread's mail, then the last reply's, and none once an event that is no mail comes last |
| `Store.UnbridgingForgetsOnlyTheRoom` | src/store/threads.rs:161-171 | unbridging leaves the lookups of every other room and the record of bridged mails alone |
| `OutboundQueue.Queue.Add` | src/store/queue.rs:9-36 | adds one row with a fresh id, held until the delay has passed, with no failures |
| `OutboundQueue.Queue.GetPending` | src/store/queue.rs:40-62 | returns ten eligible rows or all of them, each once, in no promised order |
| `OutboundQueue.BatchIsFull` | src/store/queue.rs:40-62 | a batch has as many rows as are due, or ten |
| `OutboundQueue.Queue.CancelByEvent` | src/store/queue.rs:67-73 | removes every row of the event and says whether there was one |
| `OutboundQueue.Queue.UpdateBodyByEvent` | src/store/queue.rs:77-88 | rewrites the body of every row of the event and nothing else |
| `OutboundQueue.Queue.UpdateRetryCount` | src/store/queue.rs:90-96 | counts one failure and its time on one row, none on a missing row |
| `OutboundQueue.Queue.Remove` | src/store/queue.rs:98-104 | deletes one row |
| `OutboundQueue.Queue.Submit` | src/retry.rs:38-54 | a delivered row or one whose room is gone is out of the table; a failed one counts one more failure, or goes with a notice if it was its tenth; no other row changes |
| `OutboundQueue.Queue.RunOnce` | src/retry.rs:18-35 | one pass submits each row of the snapshot once: each is gone or aged as its own outcome says, with one notice per row given up, and no other row changes |
| `OutboundEndings.DoneIsForGood` | src/retry.rs:38-97 | in every run a message that was delivered, or whose room is gone, is out of the table once that is stored, and is never submitted again whatever follows |
| `OutboundEndings.RowLeavesIff` | src/retry.rs:38-54 | in every run a row leaves the table exactly when it is cancelled or the table learns of its delivery, its missing room or its tenth failure; until then only its own edits and failures change it |
| `OutboundEndings.PassIsRun` | src/retry.rs:18-35 | the pass of the worker over the table is the run of steps that snapshots and submits the same rows |
| `OutboundRuns.AttemptsAreBounded` | src/retry.rs:198-223 | in every run of enqueues, edits, cancels, snapshots, submits, lost writes and restarts the stored count stays in 0..9, a row is attempted at most ten times plus once per lost write, and a notice comes only after ten attempts |
| `OutboundRuns.TenthFailureGivesUp` | src/retry.rs:199-218 | without lost writes the tenth failure, and no earlier one, removes the row and leaves exactly one notice |
| `OutboundRuns.BackoffIsKept` | src/store/queue.rs:44-58 | in every run an attempt after k failures starts more than 2^(k-1) minutes after the k-th failure, and the tenth more than 511 minutes after the first |
| `OutboundRuns.DueIff` | src/store/queue.rs:44-58 | a row is due exactly from the end of its hold and, after k failures, from 2^(k-1) minutes past the last one, up to nine |
| `OutboundRuns.CancelHoldsIffNotInSnapshot` | src/services/transactions.rs:158-190 | after a cancel the message is never attempted again in any run if and only if the worker's snapshot no longer holds it |
| `OutboundRuns.HeldMessageCanBeUndone` | src/ghost.rs:335-374 | a message cancelled while its hold runs is never submitted, whatever came before and whatever follows |
| `OutboundRuns.SubmitsLastEditBeforeSnapshot` | src/services/transactions.rs:195-222 | every body submitted in every run is that of the last edit before the snapshot that took it |
| `OutboundRuns.QueueDrains` | src/retry.rs:18-54 | over every run from every reachable state, with cancels, edits, lost writes and restarts, submissions the table learns of number at most what was left plus ten per message enqueued meanwhile, and as many as were left empty the table |
| `OutboundRuns.CanAlwaysDrain` | src/retry.rs:18-54 | no state is stuck: however the mail server ends one submission after the other, some run without new messages empties the table |
| `OutboundRuns.BatchSpends` | src/retry.rs:18-35 | each processed row lowers the sum of remaining attempts |
| `OutboundRuns.DueTableYieldsBatch` | src/store/queue.rs:40-62 | a table with a due row never yields an empty batch |
| `ImageChrome.ScanFindsExactlyChrome` | src/services/content.rs:1056-1133 | on every token stream the one-pass scan with its flags returns exactly the mastheads of a text, the first nodes of list items, the images of strips in one link and those of runs of single-image links |
| `ImageChrome.ChromeImageOffsets` | src/services/content.rs:1056-1133 | the loop over the HTML returns exactly the offsets of the structural chrome of its tokens |
| `ImageChrome.HasVisibleText` | src/services/content.rs:1012-1025 | true exactly when some token of the text is visible |
| `ImageChrome.Scanner.FlushLinkChain` | src/services/content.rs:1030-1035 | a chain of two or more is chrome; the chain is empty afterwards |
| `ImageChrome.Scanner.Accept` | src/services/content.rs:1068-1130 | one turn of the loop updates all flags as the scan step says |
| `ImageReading.TokensAreThePieces` | src/services/content.rs:1060-1130 | a text written as blank units, visible characters and tags is read as those tokens, each tag by its name in any case |
| `ImageReading.EveryTextIsWritten` | src/services/content.rs:1060-1130 | every text can be written in such pieces |
| `ImageMarkers.MarkersMatchIffContentFirst` | src/services/content.rs:1140-1196 | markers and loadable images are the same in the same order if and only if every marked image is the first with its url, so always when urls are distinct |
| `ImageMarkers.LoadableWithinMarked` | src/services/content.rs:1140-1196 | with repeated urls every loadable url still has a marker |
| `ImageMarkers.OneMarkerPerContentImage` | src/services/content.rs:1175-1196 | a text without the marker character gets exactly one marker per remote image that is content |
| `ImageMarkers.ExtractRemoteImages` | src/services/content.rs:1140-1165 | returns the first image of each url, in order, decorations flagged |
| `ImageMarkers.PlaceholderRemoteImages` | src/services/content.rs:1166-1196 | giving the k-th marker the k-th url of the content images gives every image its own in place, and those urls are the ones `extract_remote_images` finds loadable, in order, exactly when every content image is the first with its url |
| `ImageMarkers.MarkersKeepOrder` | src/services/content.rs:1175-1196 | from any place on, markers stand where the content images stood, in order, and every other image is gone |
| `ImagePlaces.ImagesInPlace` | src/services/content.rs:1140-1196 | in a text of image tags with other text between them exactly the remote images among the tags are found, and only the tags are replaced |
| `ImageTags.AttributeIsRead` | src/services/content.rs:969-1007 | the first attribute of a name gives its quoted value back as it was written, in any case of the name, with blanks around the equals sign, and past other attributes whose names contain it |
| `ImageTags.UnquotedIsRead` | src/services/content.rs:969-1007 | an unquoted value is read up to the next whitespace, `>` or `/` |
| `ImageTags.ImageIsRead` | src/services/content.rs:943-961 | an image tag written with declared sizes and a url is decoration exactly if a size is at most 2, all declared sizes are at most 48, or the url holds a tracker's mark; its url comes back as written |
| `ImageTags.IsRemoteUrlIff` | src/services/content.rs:1148-1153 | a url is remote exactly if, blanks around it aside, it starts with one of the two schemes in any case |
| `ReplyQuotes.StripDeletesReplySubtrees` | src/services/content.rs:794-847 | stripping the rendering of a well-nested forest renders the forest with every reply subtree deleted, replies inside editorial quotes and anything inside replies included |
| `ReplyQuotes.StripIsSubsequence` | src/services/content.rs:794-847 | on any text the result is a subsequence of it |
| `ReplyQuotes.StripReplyBlockquotes` | src/services/content.rs:794-847 | the loops over an HTML text have both properties for the marks the source looks for |
| `ReplyQuotes.SkipRegion` | src/services/content.rs:818-842 | the inner loop ends just past the matching close, nested quotes counted |
| `ReplyQuotes.SkipForest` | src/services/content.rs:818-842 | inside a reply a whole well-nested forest is passed over at unchanged depth |
| `TagReading.IsReplyIff` | src/services/content.rs:808-812 | an open tag marks a reply exactly if it holds one of the four markers, in any case |
| `PruneEmpty.PassPrunesOnce` | src/services/content.rs:622-665 | one pass over the rendering of a well-nested forest deletes exactly the prunable elements whose contents are blank, and reports a change exactly when there was one |
| `PruneEmpty.PassesReachFullIffNestingAllows` | src/services/content.rs:608-618 | n passes reach the bottom-up pruning if and only if empty elements nest at most n deep |
| `PruneEmpty.PruneHtml` | src/services/content.rs:608-618 | the 32 passes reach the bottom-up pruning exactly when empty elements nest at most 32 deep, and never lengthen a text |
| `PruneEmpty.ChangedPassShortens` | src/services/content.rs:622-665 | on any text a pass that reports a change shortens it, and any other returns it unchanged |
| `PruneEmpty.FullKeepsLeaves` | src/services/content.rs:571-600 | pruning keeps every solid text and standing tag in order |
| `PruneEmpty.OnceProgresses` | src/services/content.rs:608-618 | a pass keeps the pruning still to be reached and takes one level of nesting off |
| `PruneEmpty.PruneEmptyOnce` | src/services/content.rs:622-665 | the loop over the text is the specified pass |
| `PruneEmpty.SkipBlankContent` | src/services/content.rs:685-699 | the alternation of whitespace and entity loops ends where the run of blank units does |
| `TagReading.IsPrunableIff` | src/services/content.rs:671-679 | an open tag is prunable exactly if its complete name, in any case, is in the list |
| `CollapseBlanks.CollapsingTwiceIsOnce` | src/services/content.rs:518-542 | collapsing blank runs is idempotent |
| `CollapseBlanks.UnchangedIffTidy` | src/services/content.rs:518-542 | a text is left alone if and only if no blank unit follows another |
| `CollapseBlanks.CollapsedIsTidy` | src/services/content.rs:518-542 | in the result no blank unit follows another, and the visible text is kept in order |
| `CollapseBlanks.RunBecomesSpace` | src/services/content.rs:518-542 | behind plain text any run of two or more whitespace characters and no-break entities becomes one space, and a single one stays as it is |
| `CollapseBlanks.CollapseBlankRuns` | src/services/content.rs:518-542 | the loop returns the specified text |
| `CollapseBreaks.CollapsedIsNeat` | src/services/content.rs:854-887 | the result starts with no break, holds no three breaks with only blanks between and no blank before a break, and keeps all other text in order |
| `CollapseBreaks.CollapsingTwiceIffLastBreakGoes` | src/services/content.rs:854-887 | collapsing is idempotent on a text if and only if, once the breaks at its very end and the ASCII blanks before each are peeled off, no break followed by blanks only is left at its end, or it has no words |
| `CollapseBreaks.EndsInBreakIffSurvives` | src/services/content.rs:876-886 | the result ends in a break exactly on those texts |
| `CollapseBreaks.BreakBeforeBlankSurvives` | src/services/content.rs:879-882 | a last break with a blank behind it survives, so such a result does collapse further |
| `CollapseBreaks.LadderBecomesTwo` | src/services/content.rs:854-887 | between plain texts one break stays and any more, with any ASCII blanks between, become two |
| `CollapseBreaks.CollapseBreakRuns` | src/services/content.rs:854-887 | the loops return the specified text |
| `NormalizePlain.NormalizingTwiceIsOnce` | src/services/content.rs:1329-1347 | normalizing is idempotent, and the lines of the result are right-trimmed with no two blank ones in a row |
| `NormalizePlain.NormalizedIsNormal` | src/services/content.rs:1329-1347 | every result is some normal lines joined |
| `NormalizePlain.NormalIsUnchanged` | src/services/content.rs:1329-1347 | normal lines joined are left alone |
| `NormalizePlain.NormalizedKeepsInk` | src/services/content.rs:546-569 | every character that shows stays, in order |
| `PlainParagraphs.BlankLinesBecomeOne` | src/services/content.rs:1329-1347 | in a text of lines, blanks behind lines go, any number of blank or padded lines between two becomes one, and none stays at the end |
| `NormalizePlain.NormalizePlain` | src/services/content.rs:1329-1347 | the loop returns the specified text |
| `QuotedReply.QuoteIsStrippedIffHeaderIsCut` | src/services/content.rs:1429-1464 | for every body, sender, date and quoted text, stripping the reply gives what stripping its body gives if and only if the body has a cut line of its own or the first line of the header is one |
| `QuotedReply.QuoteIsStripped` | src/sender.rs:102-109 | with a sender and a date in one line stripping the quoted reply always gives what stripping its body gives |
| `QuotedReply.StripQuotedReply` | src/services/content.rs:1429-1442 | the loop keeps the lines before the first cut, right-trimmed as a whole |
| `QuoteReading.ReplyIsReadBack` | src/services/content.rs:1429-1464 | a reader who knows only the shape of a quote gets sender, date and every line of the quoted text back, in order, from the printed quote |
| `QuoteReading.IsCutIff` | src/services/content.rs:1429-1442 | a line cuts the reply exactly if, blanks around it aside, it runs from `On ` to `wrote:` or is the divider of another client in any case |
| `QuoteReading.KeptIsBeforeFirstCut` | src/services/content.rs:1429-1442 | the kept lines are those before the first such line, all of them |
| `QuoteReading.QuoteFollowsBlankLine` | src/sender.rs:102-109 | an outbound reply whose text ends in no line ending is its own lines, a blank line and the lines of the quote |
| `Localpart.LocalpartsAreInjective` | src/ghost.rs:722-737 | for lower-case addresses below U+0100 equal localparts mean equal addresses |
| `Localpart.LocalpartIsReadBack` | src/ghost.rs:722-737 | below U+0100 the address is read off its localpart by taking each `=` with the two hexadecimal digits after it for the character they number |
| `Localpart.UnchangedIffPlain` | src/ghost.rs:726-729 | an address stands for itself behind the prefix exactly if it has only `a-z0-9._-` |
| `Localpart.AddressesDifferExactlyBelow201` | src/ghost.rs:722-737 | over lower-case addresses with an `@` and no control character, localparts tell all those below a limit apart if and only if the limit is at most U+0201 |
| `Localpart.WideEscapeCollides` | src/ghost.rs:731-734 | anywhere in an address an escape of three digits from U+0200 on is that of the character with the first two digits, and a digit |
| `Localpart.PlusAddressCollides` | src/ghost.rs:731-734 | a modifier letter and plus-addressing give two addresses one ghost |
| `Localpart.LocalpartIsUserId` | src/ghost.rs:722-737 | every localpart uses only `a-z0-9._=-` |
| `Localpart.AddressIsNotTheBot` | src/ghost.rs:722-737 | no address with an `@` gets the localpart of the bot |
| `Localpart.EmailToLocalpart` | src/ghost.rs:722-737 | the loop returns the specified localpart |
| `Clamp.WithinBudgetIffRoomForNotice` | src/services/content.rs:1389-1398 | the bodies are within the budget if and only if the plain one fitted beside the kept HTML or the HTML left room for the notice; otherwise they pass it by the notice at most |
| `Clamp.BodiesFitAnEvent` | src/services/content.rs:1378-1387 | with the notice of the source the bodies are always below the event size limit |
| `Clamp.FittingBodiesAreUnchanged` | src/services/content.rs:1389-1398 | bodies that fit are unchanged; HTML is kept whole exactly when it fits the budget alone and is left out otherwise; a cut plain body is a prefix and the notice |
| `Clamp.ClampedIsLargePrefix` | src/services/content.rs:1403-1419 | the kept text is a prefix of whole characters within the limit, and at most 202 bytes of room and the trailing blanks go unused |
| `Clamp.ClampedAtBreak` | src/services/content.rs:1409-1418 | a text is cut at the last space or newline that fits, if that is less than 200 bytes back |
| `Clamp.ClampedInWord` | src/services/content.rs:1409-1418 | without such a break it is cut after the last character that fits |
| `Clamp.ClampUtf8` | src/services/content.rs:1403-1419 | the search for a character boundary and a break returns the specified text |
| `Clamp.ClampToMatrixLimit` | src/services/content.rs:1389-1398 | returns the specified bodies |

## Left out

- HTTP clients, wire formats, blob transfer and request building: a remote call is a step that happens or fails.
- SQLite, `ammonia`, `html2text` and `jiff`: tables are maps, sequences and sets with the effect of the statement; the passes around the sanitizer are modelled, the sanitizer is not.
- ReadState: user actions do not overlap, and the thread's latest event does not move during one; a call has no effect when it fails, except that a handler may also give up after a call that worked.
- ReadState: `Mirror` and `ApplyFlag` take the read of a gate, the lookups and the first remote call after them as one step; what another task changes between those is not modelled.
- ReadStateFeed: the pages of one poll are one page, and the server can always say what changed since the token; the fall-back to a bootstrap is in `Ingest`.
- ReadStateSettling.CanSettleIffNothingLost: stated where no step turns the room back; elsewhere a stale receipt can change a lost mail back to what its gate says, and `CanAlwaysSettle` stands for those rooms.
- ReadState, Ingest, CreationLock and TransactionClaim are functions on values rather than classes, because their tasks run concurrently; what a handler does on its own is a method over rows beside them, and what others do during its pauses is left to the step systems.
- Ingest.EveryMailIsReached: stated for runs without the exceptions named above, for a positive page limit (with 0 the walk ends at once), for a cutoff that is pinned and a server that honours `limit`; "handed to `process_email`" includes mails it then skips or fails to bridge.
- Ingest.PostsAtMostOnce: `process_email` is one step; poller and walk at work on the same mail at once, and a crash between post and mapping, can post twice.
- IngestTasks.Account.ProcessEmail: says that a mail goes on to the read mirror; what the mirror does is `ReadStateTasks`.
- IngestTasks.Account.BackfillRound: starts at a position that was read; resolving the window's cutoff comes before the model.
- CreationLock: `submit_fresh` saves a thread mapping without the lock and is not a task of the model; how long a task waits before it tries again is not modelled.
- CreationTasks.EnsureEmailSpace: waits at most as many turns as it is given; a mail's room name, topic, ghost and attachments are calls that work or fail.
- TransactionClaim: pruning of claims after seven days.
- OutboundRuns: event ids of enqueued messages are fresh, as Matrix event ids are; a user's logout, which clears the queue, is not a step.
- OutboundRuns.AttemptsAreBounded: the ten attempts are counted beside the writes that were lost, because a lost write hides an attempt from the table.
- ImageChrome, ReplyQuotes, PruneEmpty and the collapsers work on characters where the source has byte offsets into UTF-8; every tag test is ASCII in both.
- ReplyQuotes.StripDeletesReplySubtrees: well-nested means that no tag holds `<` or `>` in an attribute, as in sanitized HTML; on other texts the subsequence result stands alone.
- CollapseBlanks.RunBecomesSpace: stated for a run behind text without whitespace and `&`; `CollapsedIsTidy` and `UnchangedIffTidy` are for any text.
- CollapseBreaks.LadderBecomesTwo: stated for breaks between texts without a `<`; `CollapsedIsNeat` is for any text.
- ImageTags.ImageIsRead: stated for double-quoted sizes and url; a url that itself reads as an assignment of a size the tag lacks, such as `…/width=1`, is taken for that size by the source too.
- QuoteReading.ReplyIsReadBack: the date has no comma before a space, since the printed header marks the end of the date by one.
- PruneEmpty.PassesReachFullIffNestingAllows: the same, and solid text does not begin with the unfinished start of a no-break entity; the results on any text stand without that.
- Localpart: lower-casing is Unicode's and comes before the model; the argument is the lower-case address.
- Store: rows of other users, the ghost bindings and subjects, and the tables no modelled protocol reads.
- `unwrap_li_paragraphs`, `prune_br_only_links`, `strip_block_adjacent_breaks`, `separate_table_blocks` and `render_inline_images`: further passes of the same shape.
- Subjects, signatures, display names, avatars, login sessions, status counts, commands, configuration, permissions and encryption: small rules and plumbing.
