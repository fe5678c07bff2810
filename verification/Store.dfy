/**
 * The lock, space and mapping rows (src/store/threads.rs, src/store/sync.rs),
 * updated in place by the handlers of `CreationTasks` and `ReadStateTasks`, and
 * what the lookups over them say after a conversation was bridged, answered or
 * unbridged.
 */
module Store {
  import opened Wrappers

  /** Lock keys, `thread:{id}` and `email_space:{user}`: what gets one room each. */
  datatype Key = Thread(id: string) | Space(user: string)

  /** A row of `thread_mapping`. */
  datatype ThreadRow = ThreadRow(root: string, room: string, latest: Option<string>)

  type Threads = map<string, ThreadRow>

  /** The `email_space_room` of each user. */
  type Spaces = map<string, string>

  /** The room a key has. */
  function RoomOf(threads: Threads, spaces: Spaces, key: Key): Option<string> {
    match key
    case Thread(id) => if id in threads then Some(threads[id].room) else None
    case Space(user) => if user in spaces then Some(spaces[user]) else None
  }

  /** `message_mapping`: the event each bridged mail was posted as. */
  type Messages = map<string, string>

  /** The mails `get_latest_email_id_by_room` may return: those posted as the latest event of a thread of the room. */
  ghost function LatestEmails(threads: Threads, messages: Messages, room: string): set<string> {
    set email | email in messages && IsLatest(threads, room, messages[email])
  }

  ghost predicate IsLatest(threads: Threads, room: string, event: string) {
    exists thread :: thread in threads && threads[thread].room == room && threads[thread].latest == Some(event)
  }

  /** What the lookup of the latest mail may return. */
  ghost predicate MayBeLatest(threads: Threads, messages: Messages, room: string, email: Option<string>) {
    var latest := LatestEmails(threads, messages, room);
    if email.Some? then email.value in latest else latest == {}
  }

  ghost function SomeLatest(threads: Threads, messages: Messages, room: string): (email: Option<string>)
    ensures MayBeLatest(threads, messages, room, email)
  {
    var latest := LatestEmails(threads, messages, room);
    if latest == {} then None else (var email :| email in latest; Some(email))
  }

  function WithoutRoom(threads: Threads, room: string): Threads {
    map thread | thread in threads && threads[thread].room != room :: threads[thread]
  }

  function WithLatest(threads: Threads, thread: string, event: string): Threads {
    if thread in threads then threads[thread := threads[thread].(latest := Some(event))] else threads
  }

  class Rows {
    var locks: set<Key>
    var spaces: Spaces
    var threads: Threads
    var messages: Messages

    constructor ()
      ensures locks == {} && spaces == map[] && threads == map[] && messages == map[]
    {
      locks, spaces, threads, messages := {}, map[], map[], map[];
    }

    /** `try_acquire_room_creation_lock`: the insert fails on a second row. */
    method TryAcquireRoomCreationLock(key: Key) returns (acquired: bool)
      modifies this`locks
      ensures acquired <==> key !in old(locks)
      ensures locks == old(locks) + {key}
    {
      acquired := key !in locks;
      locks := locks + {key};
    }

    /** `release_room_creation_lock` */
    method ReleaseRoomCreationLock(key: Key)
      modifies this`locks
      ensures locks == old(locks) - {key}
    {
      locks := locks - {key};
    }

    /** `get_thread_info` or `get_email_space_room`: the room the key has. */
    method GetRoom(key: Key) returns (room: Option<string>)
      ensures room == RoomOf(threads, spaces, key)
    {
      match key {
        case Thread(id) => room := if id in threads then Some(threads[id].room) else None;
        case Space(user) => room := if user in spaces then Some(spaces[user]) else None;
      }
    }

    /** `set_email_space_room` */
    method SetEmailSpaceRoom(user: string, room: string)
      modifies this`spaces
      ensures spaces == old(spaces)[user := room]
    {
      spaces := spaces[user := room];
    }

    /** `save_thread_mapping_atomic`, committed: the latest event starts as the root. */
    method SaveThreadMappingAtomic(thread: string, root: string, room: string)
      modifies this`threads
      ensures threads == old(threads)[thread := ThreadRow(root, room, Some(root))]
    {
      threads := threads[thread := ThreadRow(root, room, Some(root))];
    }

    /** `update_thread_latest_event`: an update, so a thread without a row stays without one. */
    method UpdateThreadLatestEvent(thread: string, event: string)
      modifies this`threads
      ensures threads == WithLatest(old(threads), thread, event)
    {
      if thread in threads {
        threads := threads[thread := threads[thread].(latest := Some(event))];
      }
    }

    /** The second delete of `unbridge_room`. */
    method DeleteThreadsOf(room: string)
      modifies this`threads
      ensures threads == WithoutRoom(old(threads), room)
    {
      threads := WithoutRoom(threads, room);
    }

    method SaveMessageMapping(email: string, event: string)
      modifies this`messages
      ensures messages == old(messages)[email := event]
    {
      messages := messages[email := event];
    }

    /** `get_latest_email_id_by_room`: some row of the join, if it has one. */
    method GetLatestEmailIdByRoom(room: string) returns (email: Option<string>)
      ensures MayBeLatest(threads, messages, room, email)
    {
      var left := messages.Keys;
      while left != {}
        invariant left <= messages.Keys
        invariant forall e | e in messages && e !in left :: !IsLatest(threads, room, messages[e])
        decreases |left|
      {
        var e :| e in left;
        var latest := HasLatest(room, messages[e]);
        if latest {
          assert e in LatestEmails(threads, messages, room);
          return Some(e);
        }
        left := left - {e};
      }
      return None;
    }

    method HasLatest(room: string, event: string) returns (found: bool)
      ensures found <==> IsLatest(threads, room, event)
    {
      var left := threads.Keys;
      while left != {}
        invariant left <= threads.Keys
        invariant forall t | t in threads && t !in left ::
          !(threads[t].room == room && threads[t].latest == Some(event))
        decreases |left|
      {
        var t :| t in left;
        if threads[t].room == room && threads[t].latest == Some(event) {
          return true;
        }
        left := left - {t};
      }
      return false;
    }
  }

  // ----- What the lookups say -----------------------------------------------------------------

  /** The event is in no row yet. */
  ghost predicate IsNew(threads: Threads, messages: Messages, event: string) {
    && (forall email | email in messages :: messages[email] != event)
    && (forall thread | thread in threads :: threads[thread].latest != Some(event))
  }

  /** The thread is the only one in its room. */
  ghost predicate AloneIn(threads: Threads, thread: string, room: string) {
    forall t | t in threads && threads[t].room == room :: t == thread
  }

  /**
   * In a room with one thread, the latest mail is the one posted as the thread's
   * latest event: the new mail of a new thread, the answer of a reply, and none
   * at all once an event that is no mail, an attachment, comes last.
   */
  lemma LatestFollowsTheThread(threads: Threads, messages: Messages, thread: string, room: string,
        email: string, event: string)
    requires IsNew(threads, messages, event) && AloneIn(threads, thread, room)
    ensures
      LatestEmails(threads[thread := ThreadRow(event, room, Some(event))], messages[email := event], room) == {email}
    ensures thread in threads && threads[thread].room == room ==>
      && LatestEmails(WithLatest(threads, thread, event), messages[email := event], room) == {email}
      && LatestEmails(WithLatest(threads, thread, event), messages, room) == {}
  {
    var fresh', answered := threads[thread := ThreadRow(event, room, Some(event))], WithLatest(threads, thread, event);
    OnlyLatest(fresh', thread, room, event);
    MailOfEvent(fresh', messages, room, email, event);
    if thread in threads && threads[thread].room == room {
      OnlyLatest(answered, thread, room, event);
      MailOfEvent(answered, messages, room, email, event);
    }
  }

  lemma OnlyLatest(threads: Threads, thread: string, room: string, event: string)
    requires thread in threads && threads[thread].room == room && threads[thread].latest == Some(event)
    requires AloneIn(threads, thread, room)
    ensures forall e :: IsLatest(threads, room, e) <==> e == event
  {
  }

  lemma MailOfEvent(threads: Threads, messages: Messages, room: string, email: string, event: string)
    requires forall e :: IsLatest(threads, room, e) <==> e == event
    requires forall m | m in messages :: messages[m] != event
    ensures LatestEmails(threads, messages[email := event], room) == {email}
    ensures LatestEmails(threads, messages, room) == {}
  {
    hide IsLatest;
    var after := LatestEmails(threads, messages[email := event], room);
    forall m ensures m in after <==> m == email {
      if m in messages && m != email { assert messages[email := event][m] == messages[m]; }
    }
  }

  /** Unbridging a room forgets its threads and nobody else's; the mails stay bridged, so none is posted again. */
  lemma UnbridgingForgetsOnlyTheRoom(threads: Threads, messages: Messages, room: string, other: string)
    ensures LatestEmails(WithoutRoom(threads, room), messages, room) == {}
    ensures
      other != room ==>
        LatestEmails(WithoutRoom(threads, room), messages, other) == LatestEmails(threads, messages, other)
    ensures forall thread | thread in threads :: thread in WithoutRoom(threads, room) <==> threads[thread].room != room
  {
    forall event ensures !IsLatest(WithoutRoom(threads, room), room, event) {}
    if other != room {
      forall event ensures IsLatest(WithoutRoom(threads, room), other, event) <==> IsLatest(threads, other, event) {
        if t :| t in threads && threads[t].room == other && threads[t].latest == Some(event) {
          assert t in WithoutRoom(threads, room);
        }
      }
    }
  }
}
