/**
 * The creating handlers over the rows of the store: `process_new_thread` and
 * `process_reply` (src/sync/email.rs), `ensure_email_space` (src/ghost.rs), the
 * spawned release and the unbridging of a room. Run undisturbed, each is a run of
 * the steps that `CreationLock` lets interleave, whichever of its calls fail.
 */
module CreationTasks {
  import opened Wrappers
  import opened Store
  import opened CreationLock

  /** The rows hold the locks and rooms of this state of the protocol. */
  ghost predicate Shows(rows: Rows, s: State)
    reads rows
  {
    && s.locks == rows.locks
    && ShowsRooms(rows.threads, rows.spaces, s.stored)
  }

  ghost predicate ShowsRooms(threads: Threads, spaces: Spaces, stored: map<Key, Room>) {
    forall key :: RoomOf(threads, spaces, key) == if key in stored then Some(stored[key]) else None
  }

  predicate IsAt(s: State, t: TaskId, key: Key, place: Place) {
    t in s.tasks && s.tasks[t] == Task(key, place)
  }

  // ----- Waiting for the lock --------------------------------------------------------------------

  /** How the insert of the lock row goes: a failing one may have inserted the row. */
  datatype Insert = Works | Fails(inserted: bool)

  /** How one turn of the waiting loop ends. */
  datatype Turn = Found(room: string) | Acquired | Busy | Failed

  function TurnSteps(t: TaskId, readable: bool, insert: Insert): seq<Step> {
    [if readable then Check(t) else Abort(t), if insert.Works? then Acquire(t) else AcquireFails(t, insert.inserted)]
  }

  /** One turn of the loop both handlers wait in: look the key up, then try to insert the lock row. */
  method TakeTurn(rows: Rows, key: Key, readable: bool, insert: Insert, ghost s: State, ghost t: TaskId)
    returns (turn: Turn)
    requires Shows(rows, s) && IsAt(s, t, key, Checking)
    modifies rows`locks
    ensures
      var s' := Run(s, TurnSteps(t, readable, insert));
      Shows(rows, s') &&
      match turn
      case Found(room) => IsAt(s', t, key, Done(Some(room))) && RoomOf(rows.threads, rows.spaces, key) == Some(room)
      case Acquired => IsAt(s', t, key, Rechecking) && key !in old(rows.locks)
      case Busy => s' == s
      case Failed => IsAt(s', t, key, Done(None))
    ensures
      var room := RoomOf(rows.threads, rows.spaces, key);
      && turn == (if !readable then Failed
                  else if room.Some? then Found(room.value)
                  else if !insert.Works? then Failed
                  else if key in old(rows.locks) then Busy else Acquired)
      && rows.locks == old(rows.locks) +
           (if readable && room.None? && (insert.Works? || insert.inserted) then {key} else {})
  {
    RunTwo(s, TurnSteps(t, readable, insert)[0], TurnSteps(t, readable, insert)[1]);
    if !readable {
      return Failed;
    }
    var room := rows.GetRoom(key);
    if room.Some? {
      return Found(room.value);
    }
    match insert {
      case Works =>
        var acquired := rows.TryAcquireRoomCreationLock(key);
        turn := if acquired then Acquired else Busy;
      case Fails(inserted) =>
        if inserted {
          var _ := rows.TryAcquireRoomCreationLock(key);
        }
        turn := Failed;
    }
  }

  /** The task the guard of a holder has spawned. */
  method RunRelease(rows: Rows, works: bool, key: Key, ghost s: State, ghost t: TaskId)
    requires Shows(rows, s) && t in s.releases && s.releases[t] == key
    modifies rows`locks
    ensures Shows(rows, Next(s, Release(t, works)))
  {
    if works {
      rows.ReleaseRoomCreationLock(key);
    }
  }

  // ----- Creating under the lock -------------------------------------------------------------------

  /** How the calls of a holder go: the re-check, the creation, the save, and what comes after it. */
  datatype Calls = Calls(readable: bool, created: Option<Room>, saved: bool, finished: bool)

  /** The steps of a holder. */
  function HolderSteps(t: TaskId, found: bool, c: Calls): seq<Step> {
    var last := if c.finished then Leave(t) else Abort(t);
    if !c.readable then [Abort(t)]
    else if found then [Recheck(t), last]
    else [Recheck(t), if c.created.Some? then Create(t, c.created.value) else Abort(t),
          if c.saved then Save(t) else Abort(t), last]
  }

  /** The room a holder ends up with: the one it found or the one it created and stored. */
  function HeldRoom(stored: map<Key, Room>, key: Key, c: Calls): Option<Room> {
    if !c.readable then None
    else if key in stored then Some(stored[key])
    else if c.saved then c.created
    else None
  }

  lemma HolderEnds(s: State, t: TaskId, key: Key, c: Calls)
    requires IsAt(s, t, key, Rechecking)
    ensures
      var s', room := Run(s, HolderSteps(t, key in s.stored, c)), HeldRoom(s.stored, key, c);
      && s'.locks == s.locks
      && t in s'.releases && s'.releases[t] == key
      && s'.stored == (if room.Some? then s.stored[key := room.value] else s.stored)
      && IsAt(s', t, key, Done(if c.finished then room else None))
  {
    var steps := HolderSteps(t, key in s.stored, c);
    if !c.readable {
      RunOne(s, steps[0]);
    } else if key in s.stored {
      RunTwo(s, steps[0], steps[1]);
      assert s.stored[key := s.stored[key]] == s.stored;
    } else {
      RunFour(s, steps[0], steps[1], steps[2], steps[3]);
      CreatorEnds(s, t, key, c);
    }
  }

  lemma CreatorEnds(s: State, t: TaskId, key: Key, c: Calls)
    requires IsAt(s, t, key, Rechecking) && c.readable && key !in s.stored
    ensures
      var steps := HolderSteps(t, false, c);
      var s', room := Next(Next(Next(Next(s, steps[0]), steps[1]), steps[2]), steps[3]), HeldRoom(s.stored, key, c);
      && s'.locks == s.locks
      && t in s'.releases && s'.releases[t] == key
      && s'.stored == (if room.Some? then s.stored[key := room.value] else s.stored)
      && IsAt(s', t, key, Done(if c.finished then room else None))
  {
    var s1 := Move(s, t, Creating);
    RecheckMisses(s, t, key);
    hide Next;
    if c.created.None? {
      LeaverStays(s1, t, Abort(t), if c.saved then Save(t) else Abort(t));
      LeaverStays(s1, t, Abort(t), if c.finished then Leave(t) else Abort(t));
    } else {
      var room := c.created.value;
      CreatorMoves(s1, t, key, room);
      if !c.saved {
        LeaverStays(Move(s1, t, Saving(room)), t, Abort(t), if c.finished then Leave(t) else Abort(t));
      } else {
        SaverMoves(Move(s1, t, Saving(room)), t, key, room);
        var s2 := Move(Move(s1, t, Saving(room)), t, Using(room)).(stored := s.stored[key := room]);
        UserLeaves(s2, t, key, room, c.finished);
      }
    }
  }

  lemma RecheckMisses(s: State, t: TaskId, key: Key)
    requires IsAt(s, t, key, Rechecking) && key !in s.stored
    ensures Next(s, Recheck(t)) == Move(s, t, Creating)
  {
  }

  lemma CreatorMoves(s: State, t: TaskId, key: Key, room: Room)
    requires IsAt(s, t, key, Creating)
    ensures Next(s, Create(t, room)) == Move(s, t, Saving(room))
  {
  }

  lemma SaverMoves(s: State, t: TaskId, key: Key, room: Room)
    requires IsAt(s, t, key, Saving(room))
    ensures Next(s, Save(t)) == Move(s, t, Using(room)).(stored := s.stored[key := room])
  {
  }

  /** A task that gave up is done: nothing more happens to it. */
  lemma LeaverStays(s: State, t: TaskId, leave: Step, next: Step)
    requires t in s.tasks && s.tasks[t].Holds() && leave == Abort(t) && next in {Save(t), Leave(t), Abort(t)}
    ensures Next(s, leave) == Return(s, t, None) && Next(Next(s, leave), next) == Return(s, t, None)
  {
  }

  lemma UserLeaves(s: State, t: TaskId, key: Key, room: Room, finished: bool)
    requires IsAt(s, t, key, Using(room))
    ensures Next(s, if finished then Leave(t) else Abort(t)) == Return(s, t, if finished then Some(room) else None)
  {
  }

  /** The space a holder returns: the one it finds on looking again, or the one it created and stored. */
  function SpaceHeld(spaces: Spaces, user: string, c: Calls): Option<Room> {
    if !c.readable then None
    else if user in spaces then Some(spaces[user])
    else if c.saved then c.created else None
  }

  /** `ensure_email_space` under the lock: look again, create, store. */
  method CreateSpace(rows: Rows, user: string, c: Calls, ghost s: State, ghost t: TaskId) returns (result: Option<Room>)
    requires Shows(rows, s) && IsAt(s, t, Space(user), Rechecking) && c.finished
    modifies rows`spaces
    ensures
      var s' := Run(s, HolderSteps(t, Space(user) in s.stored, c));
      Shows(rows, s') && IsAt(s', t, Space(user), Done(result))
    ensures result == SpaceHeld(old(rows.spaces), user, c)
    ensures rows.spaces ==
      if c.readable && user !in old(rows.spaces) && c.created.Some? && c.saved
      then old(rows.spaces)[user := c.created.value] else old(rows.spaces)
  {
    assert (user in rows.spaces) == (Space(user) in s.stored) by {
      RoomIsStored(rows.threads, rows.spaces, s.stored, Space(user));
    }
    HolderEnds(s, t, Space(user), c);
    hide Run, HolderSteps;
    if !c.readable {
      return None;
    }
    var room := rows.GetRoom(Space(user));
    if room.Some? {
      assert s.stored[Space(user) := room.value] == s.stored;
      return room;
    }
    if c.created.None? || !c.saved {
      return None;
    }
    rows.SetEmailSpaceRoom(user, c.created.value);
    return c.created;
  }

  /**
   * `ensure_email_space`: wait for the lock, at most as many turns as given here,
   * then create. It returns the stored space, and creates and stores one for a user who
   * has none, unless a call fails or the lock is taken.
   */
  method EnsureEmailSpace(rows: Rows, user: string, turns: seq<(bool, Insert)>, c: Calls,
        ghost s0: State, ghost t: TaskId)
    returns (result: Option<Room>, ghost steps: seq<Step>)
    requires Shows(rows, s0) && t !in s0.tasks && t !in s0.releases && c.finished
    modifies rows`locks, rows`spaces
    ensures Shows(rows, Run(s0, steps))
    ensures result.Some? ==> user in rows.spaces && rows.spaces[user] == result.value
    ensures result.Some? ==> IsAt(Run(s0, steps), t, Space(user), Done(result))
    ensures turns != [] && turns[0].0 && user in old(rows.spaces) ==> result == Some(old(rows.spaces)[user])
    ensures
      && turns != [] && turns[0] == (true, Works) && c.readable && c.created.Some? && c.saved
      && user !in old(rows.spaces) && Space(user) !in old(rows.locks) ==>
        result == c.created
    ensures result.None? ==>
      || turns == [] || !turns[0].0
      || (&& user !in old(rows.spaces)
          && (|| Space(user) in old(rows.locks) || turns[0].1.Fails?
              || !c.readable || c.created.None? || !c.saved))
    ensures rows.spaces ==
      if result.Some? && user !in old(rows.spaces)
      then old(rows.spaces)[user := result.value] else old(rows.spaces)
    ensures rows.locks == old(rows.locks) +
      (if turns != [] && turns[0].0 && user !in old(rows.spaces) && (turns[0].1.Works? || turns[0].1.inserted)
       then {Space(user)} else {})
  {
    var key := Space(user);
    ghost var s := Next(s0, Spawn(t, key));
    steps := [Spawn(t, key)];
    RunOne(s0, Spawn(t, key));
    assert IsAt(s, t, key, Checking);
    hide Run, Next, HolderSteps, TurnSteps;
    for i := 0 to |turns|
      invariant Shows(rows, s) && IsAt(s, t, key, Checking) && s == Run(s0, steps)
      invariant rows.spaces == old(rows.spaces) && rows.locks == old(rows.locks)
      invariant i > 0 ==> user !in rows.spaces && Space(user) in rows.locks
    {
      var (readable, insert) := turns[i];
      var turn := TakeTurn(rows, key, readable, insert, s, t);
      if turn.Busy? {
        continue;
      }
      RunConcat(s0, steps, TurnSteps(t, readable, insert));
      steps := steps + TurnSteps(t, readable, insert);
      ghost var s1 := Run(s0, steps);
      match turn {
        case Acquired =>
          RunConcat(s0, steps, HolderSteps(t, key in s1.stored, c));
          steps := steps + HolderSteps(t, key in s1.stored, c);
          result := CreateSpace(rows, user, c, s1, t);
        case Found(room) => result := Some(room);
        case Failed => result := None;
      }
      return;
    }
    result := None;
  }

  // ----- One room per mail thread ---------------------------------------------------------------------

  /** How the calls that post a mail go: the event sent, and the writes after it. */
  datatype Post = Post(event: Option<string>, mapped: bool, latestSaved: bool, attached: bool) {
    predicate Succeeds() { event.Some? && mapped && attached }
  }

  /** `process_reply`: post into the room the thread has, map the mail, move the latest event on. */
  method ProcessReply(rows: Rows, thread: string, email: string, post: Post) returns (ok: bool)
    modifies rows`threads, rows`messages
    ensures ok == post.Succeeds()
    ensures forall key :: RoomOf(rows.threads, rows.spaces, key) == old(RoomOf(rows.threads, rows.spaces, key))
    ensures rows.messages ==
      if post.event.Some? && post.mapped then old(rows.messages)[email := post.event.value] else old(rows.messages)
    ensures rows.threads ==
      if post.event.Some? && post.mapped && post.latestSaved
        then WithLatest(old(rows.threads), thread, post.event.value)
      else old(rows.threads)
  {
    if post.event.None? || !post.mapped {
      return false;
    }
    rows.SaveMessageMapping(email, post.event.value);
    if post.latestSaved {
      rows.UpdateThreadLatestEvent(thread, post.event.value);
    }
    return post.attached;
  }

  /** The first mail of a room: post, store the thread with it as root and latest event, map the mail. */
  method PostFirst(rows: Rows, thread: string, email: string, room: Room, committed: bool, post: Post)
    returns (ok: bool)
    modifies rows`threads, rows`messages
    ensures ok == (committed && post.Succeeds())
    ensures rows.threads ==
      if post.event.Some? && committed then old(rows.threads)[thread := ThreadRow(post.event.value, room, post.event)]
      else old(rows.threads)
    ensures rows.messages ==
      if post.event.Some? && committed && post.mapped
        then old(rows.messages)[email := post.event.value] else old(rows.messages)
  {
    if post.event.None? || !committed {
      return false;
    }
    rows.SaveThreadMappingAtomic(thread, post.event.value, room);
    if !post.mapped {
      return false;
    }
    rows.SaveMessageMapping(email, post.event.value);
    return post.attached;
  }

  /** How the calls of `process_new_thread` go, as the calls of a holder. */
  function ThreadCalls(readable: bool, created: Option<Room>, committed: bool, post: Post): Calls {
    Calls(readable, created, post.event.Some? && committed, post.Succeeds())
  }

  /**
   * `process_new_thread` under the lock: answer into the room another mail made, or
   * create one, post, and store both mappings. A mail posted with success is then
   * the latest mail of its room.
   */
  method CreateThread(rows: Rows, thread: string, email: string, readable: bool, created: Option<Room>,
                      committed: bool, post: Post, ghost s: State, ghost t: TaskId)
    returns (ok: bool)
    requires Shows(rows, s) && IsAt(s, t, Thread(thread), Rechecking)
    modifies rows`threads, rows`messages
    ensures
      var key, c := Thread(thread), ThreadCalls(readable, created, committed, post);
      var s' := Run(s, HolderSteps(t, key in s.stored, c));
      var room := HeldRoom(s.stored, key, c);
      && Shows(rows, s')
      && ok == (room.Some? && post.Succeeds())
      && IsAt(s', t, key, Done(if ok then room else None))
      && ok == (&& readable && post.Succeeds()
                && (thread in old(rows.threads) || (created.Some? && committed)))
      && rows.messages ==
           (if readable && post.event.Some? && post.mapped
               && (thread in old(rows.threads) || (created.Some? && committed))
            then old(rows.messages)[email := post.event.value] else old(rows.messages))
      && (ok ==>
            && thread in rows.threads
            && (thread in old(rows.threads) ==> rows.threads[thread].room == old(rows.threads)[thread].room)
            && (thread !in old(rows.threads) ==> rows.threads[thread].room == created.value))
      && (forall x | x != thread ::
            (x in rows.threads <==> x in old(rows.threads))
            && (x in rows.threads ==> rows.threads[x] == old(rows.threads)[x]))
      && (ok && post.latestSaved &&
          old(IsNew(rows.threads, rows.messages, post.event.value) && AloneIn(rows.threads, thread, room.value)) ==>
            LatestEmails(rows.threads, rows.messages, room.value) == {email})
  {
    ghost var threads, messages := rows.threads, rows.messages;
    ghost var key := Thread(thread);
    HolderEnds(s, t, key, ThreadCalls(readable, created, committed, post));
    hide Run, HolderSteps, LatestEmails, IsNew, AloneIn, ShowsRooms;
    if !readable {
      return false;
    }
    var room := rows.GetRoom(Thread(thread));
    assert room.Some? == (key in s.stored) && (room.Some? ==> room.value == s.stored[key]) by {
      RoomIsStored(threads, rows.spaces, s.stored, key);
    }
    if room.Some? {
      assert s.stored[key := room.value] == s.stored;
      ok := ProcessReply(rows, thread, email, post);
      SameRoomsShow(threads, rows.threads, rows.spaces, s.stored);
    } else {
      if created.None? {
        return false;
      }
      ok := PostFirst(rows, thread, email, created.value, committed, post);
      if post.event.Some? && committed {
        NewRoomShows(threads, rows.spaces, s.stored, thread, ThreadRow(post.event.value, created.value, post.event));
      }
    }
    if ok {
      var posted := if room.Some? then room.value else created.value;
      PostedIsLatest(threads, messages, thread, posted, email, post.event.value);
    }
  }

  lemma RoomIsStored(threads: Threads, spaces: Spaces, stored: map<Key, Room>, key: Key)
    requires ShowsRooms(threads, spaces, stored)
    ensures RoomOf(threads, spaces, key) == if key in stored then Some(stored[key]) else None
  {
  }

  lemma SameRoomsShow(before: Threads, after: Threads, spaces: Spaces, stored: map<Key, Room>)
    requires ShowsRooms(before, spaces, stored)
    requires forall key :: RoomOf(after, spaces, key) == RoomOf(before, spaces, key)
    ensures ShowsRooms(after, spaces, stored)
  {
  }

  lemma NewRoomShows(threads: Threads, spaces: Spaces, stored: map<Key, Room>, thread: string, row: ThreadRow)
    requires ShowsRooms(threads, spaces, stored)
    ensures ShowsRooms(threads[thread := row], spaces, stored[Thread(thread) := row.room])
  {
    var after, stored' := threads[thread := row], stored[Thread(thread) := row.room];
    forall key ensures RoomOf(after, spaces, key) == if key in stored' then Some(stored'[key]) else None {
      RoomIsStored(threads, spaces, stored, key);
    }
  }

  /** Both ways of posting make the mail the latest of its room. */
  lemma PostedIsLatest(threads: Threads, messages: Messages, thread: string, room: Room, email: string, event: string)
    ensures IsNew(threads, messages, event) && AloneIn(threads, thread, room) ==>
      && LatestEmails(threads[thread := ThreadRow(event, room, Some(event))], messages[email := event], room) == {email}
      && (thread in threads && threads[thread].room == room ==>
            LatestEmails(WithLatest(threads, thread, event), messages[email := event], room) == {email})
  {
    if IsNew(threads, messages, event) && AloneIn(threads, thread, room) {
      LatestFollowsTheThread(threads, messages, thread, room, email, event);
    }
  }

  /**
   * `unbridge_room`, which a stop between its two deletes leaves half done: the
   * threads of the room lose it, no other key does, and nothing is left to mark unread.
   */
  method UnbridgeRoom(rows: Rows, room: string, completed: bool, ghost s: State)
    requires Shows(rows, s)
    modifies rows`threads
    ensures Shows(rows, if completed then Next(s, Unbridge(room)) else s)
    ensures completed ==> LatestEmails(rows.threads, rows.messages, room) == {}
    ensures forall other | other != room ::
      LatestEmails(rows.threads, rows.messages, other) == old(LatestEmails(rows.threads, rows.messages, other))
  {
    if completed {
      ghost var threads := rows.threads;
      rows.DeleteThreadsOf(room);
      UnbridgedRooms(threads, rows.spaces, s, room);
      forall other | other != room
        ensures LatestEmails(rows.threads, rows.messages, other) == LatestEmails(threads, rows.messages, other)
      {
        UnbridgingForgetsOnlyTheRoom(threads, rows.messages, room, other);
      }
      UnbridgingForgetsOnlyTheRoom(threads, rows.messages, room, room);
    }
  }

  lemma UnbridgedRooms(threads: Threads, spaces: Spaces, s: State, room: string)
    requires ShowsRooms(threads, spaces, s.stored)
    ensures ShowsRooms(WithoutRoom(threads, room), spaces, Next(s, Unbridge(room)).stored)
  {
    forall key ensures var stored := Next(s, Unbridge(room)).stored;
      RoomOf(WithoutRoom(threads, room), spaces, key) == if key in stored then Some(stored[key]) else None
    {
      assert RoomOf(threads, spaces, key) == if key in s.stored then Some(s.stored[key]) else None;
    }
  }

  lemma RunOne(s: State, a: Step)
    ensures Run(s, [a]) == Next(s, a)
  {
    assert [a][1..] == [];
  }

  lemma RunTwo(s: State, a: Step, b: Step)
    ensures Run(s, [a, b]) == Next(Next(s, a), b)
  {
    hide Next;
    assert [a, b][1..] == [b];
    RunOne(Next(s, a), b);
  }

  lemma RunFour(s: State, a: Step, b: Step, c: Step, d: Step)
    ensures Run(s, [a, b, c, d]) == Next(Next(Next(Next(s, a), b), c), d)
  {
    hide Next;
    assert [a, b, c, d][1..] == [b, c, d] && [b, c, d][1..] == [c, d];
    RunTwo(Next(Next(s, a), b), c, d);
  }

  lemma {:induction false} RunConcat(s: State, xs: seq<Step>, ys: seq<Step>)
    ensures Run(s, xs + ys) == Run(Run(s, xs), ys)
    decreases |xs|
  {
    hide Next;
    if xs == [] {
      assert xs + ys == ys;
    } else {
      assert (xs + ys)[0] == xs[0] && (xs + ys)[1..] == xs[1..] + ys;
      RunConcat(Next(s, xs[0]), xs[1..], ys);
    }
  }
}
