/**
 * What one poll of `sync_emails` comes to, from the answers of the server alone: the
 * token it ends with, and the mails it hands to `process_email` with the state each
 * was fetched at.
 */
module PollReplies {
  import opened Wrappers
  import opened Ingest

  /**
   * What becomes of one round of requests: a page of changes, or a bootstrap with
   * its position write and its state read. `fetched` tells whether the mails came.
   */
  datatype Reply =
    | Page(upto: nat, reported: seq<Id>, recorded: set<Id>, more: bool, fetched: bool)
    | TooOld     // cannotCalculateChanges
    | Boot(stored: bool, stateRead: bool, fetched: bool)
    | Failed

  /** The server meanwhile, and the page limit. */
  datatype Mailbox = Mailbox(list: seq<Id>, log: seq<Change>, limit: nat)

  datatype PageInHand = PageInHand(ids: seq<Id>, token: Token, more: bool)

  function FirstPage(box: Mailbox): seq<Id> {
    box.list[..Min(box.limit, |box.list|)]
  }

  /** The page this answer is, if it fits what was asked and its mails came. */
  function PageOf(box: Mailbox, current: Option<Token>, reply: Reply): Option<PageInHand> {
    match (current, reply)
    case (Some(token), Page(upto, reported, recorded, more, fetched)) =>
      if FaithfulReply(box.list, box.log, token, upto, reported, recorded) && (fetched || reported == [])
      then Some(PageInHand(reported, token.(at := upto), more)) else None
    case (None, Boot(_, stateRead, fetched)) =>
      if stateRead && (fetched || FirstPage(box) == [])
      then Some(PageInHand(FirstPage(box), Token(|box.log|, |box.log|), false)) else None
    case _ => None
  }

  /** How the poll goes on after an answer: without its token, to the next page, to its end, or not at all. */
  datatype Followed = Anew | ToNext(page: PageInHand) | ToEnd(page: PageInHand) | Fails

  /** `reset` tells whether an outdated token can be deleted. */
  function Follows(box: Mailbox, reset: bool, current: Option<Token>, reply: Reply): Followed {
    if current.Some? && reply.TooOld? then
      if reset then Anew else Fails
    else match PageOf(box, current, reply)
      case None => Fails
      case Some(page) => if page.more then ToNext(page) else ToEnd(page)
  }

  /** What stays stored if the poll fails from here, and the token it ends with if it does not. */
  datatype PollEnd = PollEnd(kept: Option<Token>, end: Option<Token>)

  function Ends(box: Mailbox, reset: bool, kept: Option<Token>, current: Option<Token>, replies: seq<Reply>): PollEnd
    decreases |replies|
  {
    if replies == [] then PollEnd(kept, None)
    else match Follows(box, reset, current, replies[0])
      case Anew => Ends(box, reset, None, None, replies[1..])
      case ToNext(page) => Ends(box, reset, kept, Some(page.token), replies[1..])
      case ToEnd(page) => PollEnd(kept, Some(page.token))
      case Fails => PollEnd(kept, None)
  }

  /** The poll comes to a page that holds mail `id`, as of log index `at`. */
  predicate Hands(box: Mailbox, reset: bool, current: Option<Token>, replies: seq<Reply>, id: Id, at: nat)
    decreases |replies|
  {
    && replies != []
    && match Follows(box, reset, current, replies[0])
       case Anew => Hands(box, reset, None, replies[1..], id, at)
       case ToNext(page) => Holds(page, id, at) || Hands(box, reset, Some(page.token), replies[1..], id, at)
       case ToEnd(page) => Holds(page, id, at)
       case Fails => false
  }

  predicate Holds(page: PageInHand, id: Id, at: nat) {
    id in page.ids && at == page.token.at
  }

  /** What a poll stores besides its token: the position of the walk, and the mails it found destroyed. */
  datatype Notes = Notes(position: Option<nat>, gone: set<Id>)

  /** A fitting page names destroyed mails; a full first page starts the walk behind it. */
  function Noted(box: Mailbox, current: Option<Token>, reply: Reply, was: Notes): Notes {
    match (current, reply)
    case (Some(token), Page(upto, reported, recorded, _, _)) =>
      if FaithfulReply(box.list, box.log, token, upto, reported, recorded)
      then was.(gone := was.gone + recorded) else was
    case (None, Boot(stored, _, _)) =>
      if stored && |FirstPage(box)| == box.limit then was.(position := Some(box.limit)) else was
    case _ => was
  }

  function Notices(box: Mailbox, reset: bool, current: Option<Token>, replies: seq<Reply>, was: Notes): Notes
    decreases |replies|
  {
    if replies == [] then was else
    var now := Noted(box, current, replies[0], was);
    match Follows(box, reset, current, replies[0])
    case Anew => Notices(box, reset, None, replies[1..], now)
    case ToNext(page) => Notices(box, reset, Some(page.token), replies[1..], now)
    case _ => now
  }

  /** Where the j-th request of a poll from `token` asks from, when pages came before it. */
  function AskedFrom(token: Token, replies: seq<Reply>, j: nat): nat
    requires j <= |replies| && forall i | 0 <= i < j :: replies[i].Page?
  {
    if j == 0 then token.at else replies[j - 1].upto
  }

  /** The first `n` answers are pages of changes that fit, each with its mails. */
  ghost predicate PagesFit(box: Mailbox, token: Token, replies: seq<Reply>, n: nat) {
    && n <= |replies|
    && (forall j | 0 <= j < n :: replies[j].Page? && (replies[j].fetched || replies[j].reported == []))
    && (forall j | 0 <= j < n ::
          FaithfulReply(box.list, box.log, token.(at := AskedFrom(token, replies, j)), replies[j].upto,
                        replies[j].reported, replies[j].recorded))
  }

  lemma PagesFitOn(box: Mailbox, token: Token, replies: seq<Reply>, n: nat)
    requires n > 0 && PagesFit(box, token, replies, n)
    ensures
      && PageOf(box, Some(token), replies[0])
         == Some(PageInHand(replies[0].reported, token.(at := replies[0].upto), replies[0].more))
      && PagesFit(box, token.(at := replies[0].upto), replies[1..], n - 1)
  {
    assert AskedFrom(token, replies, 0) == token.at && token.(at := token.at) == token;
    var rest, token' := replies[1..], token.(at := replies[0].upto);
    assert replies[0].Page?;
    forall j | 0 <= j < n - 1
      ensures rest[j] == replies[j + 1] && rest[j].Page? && (rest[j].fetched || rest[j].reported == [])
    {
    }
    forall j | 0 <= j < n - 1
      ensures token'.(at := AskedFrom(token', rest, j)) == token.(at := AskedFrom(token, replies, j + 1))
    {
      if j > 0 { assert rest[j - 1] == replies[j]; }
    }
    hide FaithfulReply;
  }

  /**
   * Pages of changes in turn, all but the last with more to come, end the poll at the
   * state of the last one, and every mail that one of them reports is handed on with
   * the state of its page.
   */
  lemma {:induction false} PagesAreFollowed(box: Mailbox, reset: bool, kept: Option<Token>, token: Token,
                                            replies: seq<Reply>, n: nat)
    requires n > 0 && PagesFit(box, token, replies, n)
    requires forall j | 0 <= j < n :: replies[j].more <==> j < n - 1
    ensures Ends(box, reset, kept, Some(token), replies) == PollEnd(kept, Some(token.(at := replies[n - 1].upto)))
    ensures forall j, id | 0 <= j < n && id in replies[j].reported ::
      Hands(box, reset, Some(token), replies, id, replies[j].upto)
    decreases n
  {
    PagesFitOn(box, token, replies, n);
    hide PageOf, FaithfulReply, PagesFit;
    if n > 1 {
      var rest := replies[1..];
      PagesAreFollowed(box, reset, kept, token.(at := replies[0].upto), rest, n - 1);
      forall j, id | 0 <= j < n && id in replies[j].reported
        ensures Hands(box, reset, Some(token), replies, id, replies[j].upto)
      {
        if j > 0 { assert rest[j - 1] == replies[j]; }
      }
    }
  }

  /** Pages of changes in turn leave the position alone and note exactly the mails they name as destroyed. */
  lemma {:induction false} PagesAreNoted(box: Mailbox, reset: bool, token: Token, replies: seq<Reply>, n: nat,
                                         was: Notes)
    requires n > 0 && PagesFit(box, token, replies, n)
    requires forall j | 0 <= j < n :: replies[j].more <==> j < n - 1
    ensures
      var now := Notices(box, reset, Some(token), replies, was);
      && now.position == was.position
      && (forall id :: id in now.gone <==> id in was.gone || exists j :: 0 <= j < n && id in replies[j].recorded)
    decreases n
  {
    PagesFitOn(box, token, replies, n);
    assert AskedFrom(token, replies, 0) == token.at && token.(at := token.at) == token;
    var first := was.(gone := was.gone + replies[0].recorded);
    assert Noted(box, Some(token), replies[0], was) == first;
    hide PageOf, FaithfulReply, PagesFit, Noted, AskedFrom;
    if n > 1 {
      var rest := replies[1..];
      PagesAreNoted(box, reset, token.(at := replies[0].upto), rest, n - 1, first);
      forall id
        ensures (exists j :: 0 <= j < n && id in replies[j].recorded) <==>
          id in replies[0].recorded || exists j :: 0 <= j < n - 1 && id in rest[j].recorded
      {
        forall j | 0 < j < n ensures replies[j] == rest[j - 1] {}
        if j :| 0 <= j < n - 1 && id in rest[j].recorded { assert id in replies[j + 1].recorded; }
      }
    }
  }

  /** When every page so far had more to come and the next answer is missing or none of theirs, the poll fails. */
  lemma {:induction false} PagesBreakOff(box: Mailbox, reset: bool, kept: Option<Token>, token: Token,
                                         replies: seq<Reply>, n: nat)
    requires PagesFit(box, token, replies, n) && forall j | 0 <= j < n :: replies[j].more
    requires n < |replies| ==>
      && !replies[n].TooOld?
      && (replies[n].Page? ==>
            || !(replies[n].fetched || replies[n].reported == [])
            || !FaithfulReply(box.list, box.log, token.(at := AskedFrom(token, replies, n)), replies[n].upto,
                              replies[n].reported, replies[n].recorded))
    ensures Ends(box, reset, kept, Some(token), replies) == PollEnd(kept, None)
    decreases n
  {
    if n == 0 {
      assert token.(at := AskedFrom(token, replies, 0)) == token;
    } else {
      PagesFitOn(box, token, replies, n);
      var rest, token' := replies[1..], token.(at := replies[0].upto);
      assert n < |replies| ==> rest[n - 1] == replies[n];
      assert forall j | 0 <= j < n - 1 :: rest[j] == replies[j + 1];
      assert n < |replies| ==>
        token'.(at := AskedFrom(token', rest, n - 1)) == token.(at := AskedFrom(token, replies, n)) by {
        if n > 1 { assert rest[n - 2] == replies[n - 1]; }
      }
      hide PageOf, FaithfulReply, PagesFit, AskedFrom;
      PagesBreakOff(box, reset, kept, token', rest, n - 1);
    }
  }

  /**
   * A bootstrap that works ends the poll at the newest state, hands its page on, and
   * starts the walk behind a full one.
   */
  lemma BootEnds(box: Mailbox, reset: bool, kept: Option<Token>, stored: bool, more: seq<Reply>)
    ensures
      var replies := [Boot(stored, true, true)] + more;
      && Ends(box, reset, kept, None, replies) == PollEnd(kept, Some(Token(|box.log|, |box.log|)))
      && (forall i | 0 <= i < Min(box.limit, |box.list|) :: Hands(box, reset, None, replies, box.list[i], |box.log|))
    ensures forall was ::
      Notices(box, reset, None, [Boot(stored, true, true)] + more, was) ==
        if stored && |box.list| >= box.limit then was.(position := Some(box.limit)) else was
  {
    forall i | 0 <= i < Min(box.limit, |box.list|) ensures box.list[i] in FirstPage(box) {
      assert FirstPage(box)[i] == box.list[i];
    }
  }

  /** An outdated token is deleted and the bootstrap comes next; one that cannot be deleted ends the poll. */
  lemma ResetBoots(box: Mailbox, kept: Option<Token>, token: Token, more: seq<Reply>)
    ensures Ends(box, true, kept, Some(token), [TooOld] + more) == Ends(box, true, None, None, more)
    ensures forall id, at ::
      Hands(box, true, Some(token), [TooOld] + more, id, at) <==> Hands(box, true, None, more, id, at)
    ensures forall was ::
      Notices(box, true, Some(token), [TooOld] + more, was) == Notices(box, true, None, more, was)
    ensures Ends(box, false, kept, Some(token), [TooOld] + more) == PollEnd(kept, None)
  {
    assert ([TooOld] + more)[1..] == more;
  }

  /** Whatever the token, a page of everything since is an answer that ends the poll at the newest state. */
  lemma OnePageServes(box: Mailbox, reset: bool, kept: Option<Token>, token: Token)
    requires token.at <= |box.log|
    ensures
      var all := Page(|box.log|, seq(|box.log| - token.at, k requires 0 <= k < |box.log| - token.at =>
                                       box.log[token.at + k].id), {}, false, true);
      && Ends(box, reset, kept, Some(token), [all]) == PollEnd(kept, Some(token.(at := |box.log|)))
      && (forall k | token.at <= k < |box.log| ::
            Hands(box, reset, Some(token), [all], box.log[k].id, |box.log|))
  {
    var ids := seq(|box.log| - token.at, k requires 0 <= k < |box.log| - token.at => box.log[token.at + k].id);
    forall k | token.at <= k < |box.log| ensures box.log[k].id in ids { assert ids[k - token.at] == box.log[k].id; }
  }
}
