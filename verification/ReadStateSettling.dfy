/**
 * Deliveries settle a room exactly when no edge was lost: whole polls, batches,
 * `/sync` responses and receipts, run one after the other, bring every gate to what
 * it gates as long as each difference is still to be noticed by somebody.
 */
module ReadStateSettling {
  import opened Wrappers
  import opened ReadState
  import opened ReadStateFeed

  // ----- Whole deliveries --------------------------------------------------------------------------

  /** No task holds anything. */
  predicate Rested(s: Live) {
    s.page.Resting? && s.batch.Waiting? && Empty(s, Poll) && Empty(s, Walk) && s.room.syncer.SyncIdle? &&
      s.room.flagRead.None?
  }

  lemma MovesOne(t: Thread, s: Live, m: Move)
    ensures Moves(t, s, [m]) == Go(t, s, m)
  {
    assert [m][1..] == [];
  }

  lemma {:induction false} MovesConcat(t: Thread, s: Live, xs: seq<Move>, ys: seq<Move>)
    ensures Moves(t, s, xs + ys) == Moves(t, Moves(t, s, xs), ys)
    decreases |xs|
  {
    hide Go;
    if xs == [] {
      assert xs + ys == ys;
    } else {
      assert (xs + ys)[0] == xs[0] && (xs + ys)[1..] == xs[1..] + ys;
      MovesConcat(t, Go(t, s, xs[0]), xs[1..], ys);
    }
  }

  lemma MovesFour(t: Thread, s: Live, a: Move, b: Move, c: Move, d: Move)
    ensures Moves(t, s, [a, b, c, d]) == Go(t, Go(t, Go(t, Go(t, s, a), b), c), d)
  {
    hide Go;
    MovesConcat(t, s, [a, b, c], [d]);
    MovesConcat(t, s, [a, b], [c]);
    MovesConcat(t, s, [a], [b]);
    MovesOne(t, s, a);
    MovesOne(t, Go(t, s, a), b);
    MovesOne(t, Go(t, Go(t, s, a), b), c);
    MovesOne(t, Go(t, Go(t, Go(t, s, a), b), c), d);
    assert [a, b, c, d] == [a, b, c] + [d] && [a, b, c] == [a, b] + [c] && [a, b] == [a] + [b];
  }

  function MirrorMoves(k: Task, e: Email): seq<Move> {
    [Handler(Mirror(k, e)), Handler(ClearFlag(k)), Handler(SaveGate(k)), Handler(DropGate(k))]
  }

  lemma MirrorWhole(t: Thread, s: Live, k: Task, e: Email)
    requires ReaderOf(s.room, k).at.Idle?
    ensures Moves(t, s, MirrorMoves(k, e)) == With(s, Finished(TakeUp(s.room, k, e, e in s.room.synced), k))
  {
    var s1 := With(s, TakeUp(s.room, k, e, e in s.room.synced));
    MovesFour(t, s, Handler(Mirror(k, e)), Handler(ClearFlag(k)), Handler(SaveGate(k)), Handler(DropGate(k)));
    assert Go(t, s, Handler(Mirror(k, e))) == s1;
    hide Moves, TakeUp;
    FinishWhole(t, s1, k);
    WithTwice(s, s1.room, Finished(s1.room, k));
  }

  lemma FinishWhole(t: Thread, s: Live, k: Task)
    ensures
      Go(t, Go(t, Go(t, s, Handler(ClearFlag(k))), Handler(SaveGate(k))), Handler(DropGate(k)))
      == With(s, Finished(s.room, k))
  {
  }

  /** What changes in two steps, and not back, is noted as in one. */
  lemma WithTwice(s: Live, room: Room, room': Room)
    requires room.seen == s.room.seen == room'.seen
    requires room.marked == s.room.marked || room'.marked == room.marked
    ensures With(With(s, room), room') == With(s, room')
  {
  }

  /**
   * What task `k` held of each mail is now what the mail's gate says, and nothing else
   * has changed but what mirroring changes.
   */
  ghost predicate Drained(s: Live, s': Live, k: Task) {
    var held := ReaderOf(s.room, k).fetched;
    && s'.reported == s.reported && s'.page == s.page && s'.ahead == s.ahead && s'.batch == s.batch
    && s'.room == WithReader(s.room, k, Reader(map[], Idle)).(
         synced := s'.room.synced, receipts := s'.room.receipts, marked := s'.room.marked)
    && (forall e :: e in s'.room.synced <==> if e in held then held[e] else e in s.room.synced)
    && Spread(s, s', held)
  }

  /** Receipts were sent for mails held as read, and a changed flag will be heard of. */
  ghost predicate Spread(s: Live, s': Live, held: map<Email, bool>) {
    && s.room.receipts <= s'.room.receipts
    && (forall e | e in s'.room.receipts :: e in s.room.receipts || (e in held && held[e]))
    && (s.news ==> s'.news)
    && (s'.room.marked != s.room.marked ==> s'.news)
    && ((forall e | e in held && held[e] :: e in s.room.synced) ==>
          s'.room.receipts == s.room.receipts && (s.room.marked ==> s'.room.marked))
  }

  lemma DrainOne(s: Live, k: Task, e: Email)
    requires ReaderOf(s.room, k).at.Idle? && e in ReaderOf(s.room, k).fetched
    ensures
      var held := ReaderOf(s.room, k).fetched;
      var s' := With(s, Finished(TakeUp(s.room, k, e, e in s.room.synced), k));
      && s'.reported == s.reported && s'.page == s.page && s'.ahead == s.ahead && s'.batch == s.batch
      && s'.room == WithReader(s.room, k, Reader(held - {e}, Idle)).(
           synced := if held[e] then s.room.synced + {e} else s.room.synced - {e},
           receipts := s'.room.receipts, marked := s'.room.marked)
      && Spread(s, s', map[e := held[e]])
  {
    var held := ReaderOf(s.room, k).fetched;
    assert held[e] == (e in s.room.synced) ==>
      (if held[e] then s.room.synced + {e} else s.room.synced - {e}) == s.room.synced;
  }

  lemma DrainCompose(s: Live, s1: Live, s2: Live, k: Task, e: Email)
    requires e in ReaderOf(s.room, k).fetched
    requires
      var held := ReaderOf(s.room, k).fetched;
      && s1.reported == s.reported && s1.page == s.page && s1.ahead == s.ahead && s1.batch == s.batch
      && s1.room == WithReader(s.room, k, Reader(held - {e}, Idle)).(
           synced := if held[e] then s.room.synced + {e} else s.room.synced - {e},
           receipts := s1.room.receipts, marked := s1.room.marked)
      && Spread(s, s1, map[e := held[e]])
    requires Drained(s1, s2, k)
    ensures Drained(s, s2, k)
  {
    var held := ReaderOf(s.room, k).fetched;
    assert ReaderOf(s1.room, k).fetched == held - {e};
  }

  /** The task mirrors all it holds, one mail after the other. */
  lemma {:induction false} DrainReader(t: Thread, w: Setting, s: Live, k: Task) returns (moves: seq<Move>)
    requires ReaderOf(s.room, k).at.Idle? && (k.Walk? ==> w.walking)
    ensures Deliveries(w, moves) && Drained(s, Moves(t, s, moves), k)
    decreases |ReaderOf(s.room, k).fetched|
  {
    var held := ReaderOf(s.room, k).fetched;
    if held == map[] {
      moves := [];
    } else {
      var e :| e in held;
      var s1 := With(s, Finished(TakeUp(s.room, k, e, e in s.room.synced), k));
      MirrorWhole(t, s, k, e);
      DrainOne(s, k, e);
      MirrorMovesDeliver(w, k, e);
      assert |held - {e}| < |held| by { FewerEntries(held, e); }
      hide Moves, With, Deliveries, Drained, Spread;
      var rest := DrainReader(t, w, s1, k);
      DrainCompose(s, s1, Moves(t, s1, rest), k, e);
      MovesConcat(t, s, MirrorMoves(k, e), rest);
      DeliveriesConcat(w, MirrorMoves(k, e), rest);
      moves := MirrorMoves(k, e) + rest;
    }
  }

  lemma FewerEntries(held: map<Email, bool>, e: Email)
    requires e in held
    ensures |held - {e}| < |held|
  {
    assert (held - {e}).Keys == held.Keys - {e};
  }

  lemma MirrorMovesDeliver(w: Setting, k: Task, e: Email)
    requires k.Walk? ==> w.walking
    ensures Deliveries(w, MirrorMoves(k, e))
  {
  }

  lemma DeliveriesConcat(w: Setting, xs: seq<Move>, ys: seq<Move>)
    requires Deliveries(w, xs) && Deliveries(w, ys)
    ensures Deliveries(w, xs + ys)
  {
  }

  /** A task has fetched and mirrored these mails as they are, from rest to rest. */
  ghost predicate Mirrored(s: Live, s': Live, mails: set<Email>) {
    && Rested(s')
    && s'.room.seen == s.room.seen && s'.room.gated == s.room.gated
    && (forall e :: e in s'.room.synced <==> if e in mails then e in s.room.seen else e in s.room.synced)
    && s.room.receipts <= s'.room.receipts <= s.room.receipts + s.room.seen
    && (s.news ==> s'.news)
    && (s'.room.marked != s.room.marked ==> s'.news)
    && (s.room.seen * mails <= s.room.synced ==>
       s'.room.receipts == s.room.receipts && (s.room.marked ==> s'.room.marked))
  }

  lemma PollStarts(t: Thread, s: Live)
    requires Rested(s)
    ensures
      var s' := Moves(t, s, [Ask, FetchPage]);
      s' == s.(room := WithReader(s.room, Poll, Reader(map e | e in s.reported :: e in s.room.seen, Idle)),
        page := Paging({}))
  {
    MovesConcat(t, s, [Ask], [FetchPage]);
    MovesOne(t, s, Ask);
    MovesOne(t, Go(t, s, Ask), FetchPage);
    assert [Ask] + [FetchPage] == [Ask, FetchPage];
  }

  /** A whole poll: every mail changed since the token is mirrored, and the token is stored. */
  lemma PollAll(t: Thread, w: Setting, s: Live) returns (moves: seq<Move>)
    requires Rested(s)
    ensures Deliveries(w, moves)
    ensures
      var s' := Moves(t, s, moves);
      Mirrored(s, s', s.reported) && s'.reported == {} && s'.ahead == s.ahead
  {
    var s1 := Moves(t, s, [Ask, FetchPage]);
    PollStarts(t, s);
    var drain := DrainReader(t, w, s1, Poll);
    var s2 := Moves(t, s1, drain);
    assert Deliveries(w, [Ask, FetchPage]) && Deliveries(w, [SaveToken]);
    assert Go(t, s2, SaveToken) == s2.(reported := {}, page := Resting);
    assert Mirrored(s, s2.(reported := {}, page := Resting), s.reported);
    hide Moves, Go, Deliveries, Drained, Mirrored;
    MovesOne(t, s2, SaveToken);
    MovesConcat(t, s, [Ask, FetchPage], drain);
    MovesConcat(t, s, [Ask, FetchPage] + drain, [SaveToken]);
    DeliveriesConcat(w, [Ask, FetchPage], drain);
    DeliveriesConcat(w, [Ask, FetchPage] + drain, [SaveToken]);
    moves := [Ask, FetchPage] + drain + [SaveToken];
  }

  /** The walk comes to all mails ahead of it. */
  lemma WalkAll(t: Thread, w: Setting, s: Live) returns (moves: seq<Move>)
    requires Rested(s) && w.walking
    ensures Deliveries(w, moves)
    ensures
      var s' := Moves(t, s, moves);
      Mirrored(s, s', s.ahead) && s'.reported == s.reported
  {
    var s1 := s.(room := WithReader(s.room, Walk, Reader(map e | e in s.ahead :: e in s.room.seen, Idle)),
      batch := Batching(s.ahead));
    MovesOne(t, s, StartBatch(s.ahead));
    assert Moves(t, s, [StartBatch(s.ahead)]) == s1;
    var drain := DrainReader(t, w, s1, Walk);
    var s2 := Moves(t, s1, drain);
    assert Deliveries(w, [StartBatch(s.ahead)]) && Deliveries(w, [FinishBatch]);
    assert Go(t, s2, FinishBatch) == s2.(ahead := s.ahead - s.ahead, batch := Waiting);
    assert Mirrored(s, s2.(ahead := s.ahead - s.ahead, batch := Waiting), s.ahead);
    hide Moves, Go, Deliveries, Drained, Mirrored;
    MovesOne(t, s2, FinishBatch);
    MovesConcat(t, s, [StartBatch(s.ahead)], drain);
    MovesConcat(t, s, [StartBatch(s.ahead)] + drain, [FinishBatch]);
    DeliveriesConcat(w, [StartBatch(s.ahead)], drain);
    DeliveriesConcat(w, [StartBatch(s.ahead)] + drain, [FinishBatch]);
    moves := [StartBatch(s.ahead)] + drain + [FinishBatch];
  }

  /** All receipts under way arrive. */
  lemma {:induction false} DeliverAll(t: Thread, w: Setting, s: Live) returns (moves: seq<Move>)
    requires Rested(s)
    ensures Deliveries(w, moves)
    ensures
      var s' := Moves(t, s, moves);
      && s'.room == s.room.(seen := s.room.seen + s.room.receipts, receipts := {})
      && s' == s.(room := s'.room, reported := s'.reported)
      && s.reported + (s.room.receipts - s.room.seen) <= s'.reported
    decreases |s.room.receipts|
  {
    if s.room.receipts == {} {
      moves := [];
      assert s.room.seen + s.room.receipts == s.room.seen;
    } else {
      var e :| e in s.room.receipts;
      var first := [Handler(DeliverReceipt(e, true))];
      var s1 := Go(t, s, first[0]);
      MovesOne(t, s, first[0]);
      assert s1.room == s.room.(seen := s.room.seen + {e}, receipts := s.room.receipts - {e});
      assert s1 == s.(room := s1.room, reported := s.reported + Changed(s.room.seen, s1.room.seen));
      assert Deliveries(w, first);
      assert (s.room.seen + {e}) + (s.room.receipts - {e}) == s.room.seen + s.room.receipts;
      assert |s.room.receipts - {e}| < |s.room.receipts|;
      hide Moves, Go, Deliveries;
      var rest := DeliverAll(t, w, s1);
      MovesConcat(t, s, first, rest);
      DeliveriesConcat(w, first, rest);
      moves := first + rest;
    }
  }

  /** One whole `/sync` response that carries the flag. */
  lemma FlagOnce(t: Thread, w: Setting, s: Live) returns (moves: seq<Move>)
    requires LatestMapped(t) && Rested(s) && s.news
    ensures Deliveries(w, moves)
    ensures
      var s' := Moves(t, s, moves);
      && s'.room == AfterSync(s.room, t.latest.value)
      && s' == s.(room := s'.room, reported := s.reported + Changed(s.room.seen, s'.room.seen), news := false)
  {
    moves := [Handler(ReadFlag), Handler(ApplyFlag), Handler(SaveFlagGate), Handler(SaveFlagGate)];
    MovesFour(t, s, Handler(ReadFlag), Handler(ApplyFlag), Handler(SaveFlagGate), Handler(SaveFlagGate));
  }

  /** Each difference is still reported or ahead of the walk, and the flag will be heard of. */
  ghost predicate AllPending(w: Setting, s: Live) {
    && (forall e | Off(s.room, e) :: e in s.reported || (w.walking && e in s.ahead))
    && (s.room.marked != s.room.gated ==> s.news)
  }

  lemma MirrorEverything(t: Thread, w: Setting, s: Live) returns (moves: seq<Move>)
    requires Rested(s) && AllPending(w, s) && s.room.receipts <= s.room.seen
    ensures Deliveries(w, moves)
    ensures
      var s' := Moves(t, s, moves);
      Rested(s') && AllPending(w, s') && s'.room.synced == s'.room.seen == s.room.seen &&
        s'.room.receipts <= s'.room.seen
  {
    moves := PollAll(t, w, s);
    var s1 := Moves(t, s, moves);
    hide Moves, Deliveries, Rested;
    if w.walking {
      var walk := WalkAll(t, w, s1);
      var s2 := Moves(t, s1, walk);
      MovesConcat(t, s, moves, walk);
      DeliveriesConcat(w, moves, walk);
      moves := moves + walk;
      forall e ensures e in s2.room.synced <==> e in s2.room.seen {
        assert Off(s.room, e) ==> e in s.reported || e in s.ahead;
      }
    } else {
      forall e ensures e in s1.room.synced <==> e in s1.room.seen {
        assert Off(s.room, e) ==> e in s.reported;
      }
    }
  }

  /** The gate of the flag is brought in line, and the latest mail if the flag asks for it. */
  lemma SettleFlag(t: Thread, w: Setting, s: Live) returns (moves: seq<Move>)
    requires LatestMapped(t) && Rested(s) && s.news && s.room.synced == s.room.seen && s.room.receipts == {}
    ensures Deliveries(w, moves) && Rested(Moves(t, s, moves)) && Settled(Moves(t, s, moves).room)
  {
    moves := FlagOnce(t, w, s);
    var s1 := Moves(t, s, moves);
    assert Rested(s1) && s1.room.gated == s1.room.marked && s1.room.receipts == {};
    hide Moves, Deliveries, Rested;
    if s1.room.seen != s.room.seen {
      assert s1.room.marked && s1.room.seen == s.room.seen - {t.latest.value};
      assert Changed(s.room.seen, s1.room.seen) == {t.latest.value};
      var poll := PollAll(t, w, s1);
      var s2 := Moves(t, s1, poll);
      assert s1.room.seen * s1.reported <= s1.room.synced;
      forall e ensures e in s2.room.synced <==> e in s2.room.seen {}
      assert Settled(s2.room) by { assert Rested(s2); RestedIsUndisturbed(s2); }
      MovesConcat(t, s, moves, poll);
      DeliveriesConcat(w, moves, poll);
      moves := moves + poll;
    } else {
      RestedIsUndisturbed(s1);
    }
  }

  lemma RestedIsUndisturbed(s: Live)
    requires Rested(s)
    ensures Undisturbed(s.room)
  {
  }

  /** From rest, deliveries settle a room whose differences are all still to be noticed. */
  lemma SettleRested(t: Thread, w: Setting, s: Live) returns (moves: seq<Move>)
    requires LatestMapped(t) && Rested(s) && AllPending(w, s)
    ensures Deliveries(w, moves) && Rested(Moves(t, s, moves)) && Settled(Moves(t, s, moves).room)
  {
    var arrive := DeliverAll(t, w, s);
    var s1 := Moves(t, s, arrive);
    assert Rested(s1) && AllPending(w, s1);
    hide Moves, Deliveries, Rested;
    var mirror := MirrorEverything(t, w, s1);
    var s2 := Moves(t, s1, mirror);
    MovesConcat(t, s, arrive, mirror);
    DeliveriesConcat(w, arrive, mirror);
    moves := arrive + mirror;
    if s2.room.marked == s2.room.gated {
      RestedIsUndisturbed(s2);
    } else {
      var echo := DeliverAll(t, w, s2);
      var s3 := Moves(t, s2, echo);
      assert s3.room.seen == s2.room.seen;
      assert Rested(s3) by { SameRest(s2, s3); }
      var flag := SettleFlag(t, w, s3);
      MovesConcat(t, s2, echo, flag);
      DeliveriesConcat(w, echo, flag);
      MovesConcat(t, s, moves, echo + flag);
      DeliveriesConcat(w, moves, echo + flag);
      moves := moves + (echo + flag);
    }
  }

  lemma SameRest(s: Live, s': Live)
    requires Rested(s) && s' == s.(room := s'.room, reported := s'.reported)
    requires s'.room == s.room.(seen := s'.room.seen, receipts := s'.room.receipts)
    ensures Rested(s')
  {
  }

  // ----- From any point of a run to rest ----------------------------------------------------------

  /** The task finishes the mail it is at and mirrors all it holds. */
  lemma FinishReader(t: Thread, w: Setting, s: Live, k: Task) returns (moves: seq<Move>)
    requires k.Walk? ==> w.walking
    ensures Deliveries(w, moves)
    ensures
      var s' := Moves(t, s, moves);
      Empty(s', k) && SameBeside(s, s', k)
  {
    var s1 := With(s, Finished(s.room, k));
    var finish := [Handler(ClearFlag(k)), Handler(SaveGate(k)), Handler(DropGate(k))];
    FinishWhole(t, s, k);
    FinishedIsIdle(s, k);
    FinishDelivers(w, k);
    hide Moves, Deliveries, With, Finished, Go;
    MovesThree(t, s, finish[0], finish[1], finish[2]);
    var drain := DrainReader(t, w, s1, k);
    DrainedIsEmpty(s1, Moves(t, s1, drain), k);
    MovesConcat(t, s, finish, drain);
    DeliveriesConcat(w, finish, drain);
    moves := finish + drain;
  }

  lemma FinishDelivers(w: Setting, k: Task)
    requires k.Walk? ==> w.walking
    ensures Deliveries(w, [Handler(ClearFlag(k)), Handler(SaveGate(k)), Handler(DropGate(k))])
  {
  }

  function OtherTask(k: Task): Task {
    if k.Poll? then Walk else Poll
  }

  /** What finishing a mail does not touch. */
  ghost predicate SameBeside(s: Live, s': Live, k: Task) {
    && ReaderOf(s'.room, OtherTask(k)) == ReaderOf(s.room, OtherTask(k))
    && s'.page == s.page && s'.batch == s.batch
    && s'.room.syncer == s.room.syncer && s'.room.flagRead == s.room.flagRead
  }

  lemma FinishedIsIdle(s: Live, k: Task)
    ensures ReaderOf(With(s, Finished(s.room, k)).room, k).at.Idle? && SameBeside(s, With(s, Finished(s.room, k)), k)
  {
    assert Changed(s.room.seen, s.room.seen) == {};
    match s.page
    case Asked(page, since) => assert since + {} == since;
    case Paging(since) => assert since + {} == since;
    case _ =>
  }

  lemma DrainedIsEmpty(s: Live, s': Live, k: Task)
    requires Drained(s, s', k)
    ensures Empty(s', k) && SameBeside(s, s', k)
  {
  }

  lemma MovesThree(t: Thread, s: Live, a: Move, b: Move, c: Move)
    ensures Moves(t, s, [a, b, c]) == Go(t, Go(t, Go(t, s, a), b), c)
  {
    hide Go;
    MovesConcat(t, s, [a, b], [c]);
    MovesConcat(t, s, [a], [b]);
    MovesOne(t, s, a);
    MovesOne(t, Go(t, s, a), b);
    MovesOne(t, Go(t, Go(t, s, a), b), c);
    assert [a, b, c] == [a, b] + [c] && [a, b] == [a] + [b];
  }

  /** The `/sync` loop finishes the response it holds. */
  lemma FinishFlag(t: Thread, g: Plan, s: Live) returns (moves: seq<Move>)
    requires t.latest == Some(g.latest) && FlagInv(g, s.room)
    ensures Deliveries(g.setting, moves)
    ensures
      var s' := Moves(t, s, moves);
      s'.room.syncer.SyncIdle? && s'.room.flagRead.None? && s'.room.walk == s.room.walk && s'.room.poll == s.room.poll
      && s'.batch == s.batch
  {
    moves := [Handler(ApplyFlag), Handler(SaveFlagGate), Handler(SaveFlagGate)];
    MovesThree(t, s, moves[0], moves[1], moves[2]);
  }

  /** The readers hold nothing and the `/sync` loop is at rest; a page may be asked for or through. */
  predicate NearRest(s: Live) {
    Empty(s, Poll) && Empty(s, Walk) && s.room.syncer.SyncIdle? && s.room.flagRead.None?
  }

  lemma ComeNearRest(t: Thread, g: Plan, s: Live) returns (moves: seq<Move>)
    requires t.latest == Some(g.latest) && Straight(g) && OnTrack(g, s)
    ensures Deliveries(g.setting, moves) && NearRest(Moves(t, s, moves))
  {
    var w := g.setting;
    var flag := FinishFlag(t, g, s);
    var s1 := Moves(t, s, flag);
    assert !w.walking ==> Empty(s, Walk);
    hide Moves, Deliveries, OnTrack, Go;
    var poll := FinishReader(t, w, s1, Poll);
    var s2 := Moves(t, s1, poll);
    MovesConcat(t, s, flag, poll);
    DeliveriesConcat(w, flag, poll);
    moves := flag + poll;
    if w.walking {
      var walk := FinishReader(t, w, s2, Walk);
      MovesConcat(t, s, moves, walk);
      DeliveriesConcat(w, moves, walk);
      moves := moves + walk;
    }
  }

  /** The page in hand is fetched, mirrored and stored, and so is the batch. */
  lemma CloseBatch(t: Thread, s: Live)
    requires NearRest(s)
    ensures NearRest(Go(t, s, FinishBatch)) && Go(t, s, FinishBatch).batch.Waiting? &&
      Go(t, s, FinishBatch).page == s.page
  {
  }

  lemma ClosePage(t: Thread, w: Setting, s: Live) returns (moves: seq<Move>)
    requires NearRest(s) && s.batch.Waiting?
    ensures Deliveries(w, moves) && Rested(Moves(t, s, moves))
  {
    var s1 := Go(t, s, FetchPage);
    MovesOne(t, s, FetchPage);
    assert Deliveries(w, [FetchPage]) && Deliveries(w, [SaveToken]);
    assert s1.room.poll.at.Idle? && s1.batch.Waiting?;
    var drain := DrainReader(t, w, s1, Poll);
    var s2 := Moves(t, s1, drain);
    assert Rested(Go(t, s2, SaveToken));
    hide Moves, Deliveries, Go, Rested;
    MovesOne(t, s2, SaveToken);
    MovesConcat(t, s, [FetchPage], drain);
    MovesConcat(t, s, [FetchPage] + drain, [SaveToken]);
    DeliveriesConcat(w, [FetchPage], drain);
    DeliveriesConcat(w, [FetchPage] + drain, [SaveToken]);
    moves := [FetchPage] + drain + [SaveToken];
  }

  lemma ComeToRest(t: Thread, g: Plan, s: Live) returns (moves: seq<Move>)
    requires t.latest == Some(g.latest) && Straight(g) && OnTrack(g, s)
    ensures Deliveries(g.setting, moves) && Rested(Moves(t, s, moves))
  {
    var w := g.setting;
    moves := ComeNearRest(t, g, s);
    var s1 := Moves(t, s, moves);
    var s2 := Go(t, s1, FinishBatch);
    CloseBatch(t, s1);
    MovesOne(t, s1, FinishBatch);
    assert Deliveries(w, [FinishBatch]);
    hide Moves, Deliveries, Go, Rested, OnTrack;
    var page := ClosePage(t, w, s2);
    MovesConcat(t, s, moves, [FinishBatch]);
    DeliveriesConcat(w, moves, [FinishBatch]);
    MovesConcat(t, s, moves + [FinishBatch], page);
    DeliveriesConcat(w, moves + [FinishBatch], page);
    moves := moves + [FinishBatch] + page;
  }

  lemma RestedIsPending(w: Setting, s: Live)
    requires Rested(s) && NothingLost(w, s)
    ensures AllPending(w, s)
  {
    forall e | Off(s.room, e) ensures e in s.reported || (w.walking && e in s.ahead) { assert !MailLost(w, s, e); }
  }

  // ----- Main results: when deliveries can settle the room ----------------------------------------

  ghost predicate CanSettle(t: Thread, w: Setting, s: Live) {
    exists moves :: Deliveries(w, moves) && Settled(Moves(t, s, moves).room)
  }

  /** No run settles the room, whatever works or fails in it, short of news, a restart or a repeated page. */
  ghost predicate NeverSettles(t: Thread, w: Setting, s: Live) {
    forall moves | MovesPossible(w, moves) && (forall m | m in moves :: BringsNothingBack(m)) ::
      !Settled(Moves(t, s, moves).room)
  }

  lemma {:induction false} LostNeverSettles(t: Thread, g: Plan, s: Live, moves: seq<Move>)
    requires t.latest == Some(g.latest) && Straight(g) && Corridor(g, s.room) && Tidy(g.setting, s)
    requires !NothingLost(g.setting, s)
    requires MovesPossible(g.setting, moves) && forall m | m in moves :: BringsNothingBack(m)
    ensures !Settled(Moves(t, s, moves).room)
    decreases |moves|
  {
    if moves == [] {
      if Settled(s.room) { assert s.room.seen == s.room.synced; }
    } else {
      var m := moves[0];
      var s1 := Go(t, s, m);
      hide Corridor, Straight, Tidy, MovePossible, BringsNothingBack, Settled, Go, MailLost, FlagLost;
      MoveStaysInCorridor(t, g, s, m);
      MoveStaysTidy(t, g.setting, s, m);
      if FlagLost(s) {
        LostFlagStays(t, g, s, m);
      } else {
        var e :| MailLost(g.setting, s, e);
        LostMailStays(t, g, s, m, e);
      }
      LostNeverSettles(t, g, s1, moves[1..]);
    }
  }

  lemma OnTrackCanSettle(t: Thread, g: Plan, s: Live) returns (moves: seq<Move>)
    requires LatestMapped(t) && t.latest == Some(g.latest) && Straight(g) && OnTrack(g, s)
    ensures Deliveries(g.setting, moves) && Settled(Moves(t, s, moves).room)
  {
    var rest := ComeToRest(t, g, s);
    var s1 := Moves(t, s, rest);
    DeliveriesStayOnTrack(t, g, s, rest);
    RestedIsPending(g.setting, s1);
    hide Moves, Deliveries, OnTrack, Settled;
    var settle := SettleRested(t, g.setting, s1);
    MovesConcat(t, s, rest, settle);
    DeliveriesConcat(g.setting, rest, settle);
    moves := rest + settle;
  }

  /** The user's action leaves the room on its way, and nothing is lost by it. */
  lemma ActIsOnTrack(t: Thread, s0: Live, a: Action, w: Setting)
    requires LatestMapped(t) && Quiet(t, s0.room) && Tidy(w, s0) && Steady(t, s0.room, a, w)
    ensures OnTrack(PlanOf(t, s0.room, a, w), ActLive(s0, a))
  {
    ActEntersCorridor(t, s0.room, a, w);
    var s := ActLive(s0, a);
    forall e ensures !MailLost(w, s, e) {
      assert Off(s.room, e) ==> e in Changed(s0.room.seen, s.room.seen);
    }
    hide Corridor, Steady;
  }

  lemma {:induction false} RunStaysTidyInCorridor(t: Thread, g: Plan, s: Live, moves: seq<Move>)
    requires t.latest == Some(g.latest) && Straight(g) && Corridor(g, s.room) && Tidy(g.setting, s)
    requires MovesPossible(g.setting, moves)
    ensures Corridor(g, Moves(t, s, moves).room) && Tidy(g.setting, Moves(t, s, moves))
    decreases |moves|
  {
    hide Corridor, Straight, Tidy, MovePossible, Go;
    if moves != [] {
      MoveStaysInCorridor(t, g, s, moves[0]);
      MoveStaysTidy(t, g.setting, s, moves[0]);
      RunStaysTidyInCorridor(t, g, Go(t, s, moves[0]), moves[1..]);
    }
  }

  /**
   * After one user action and any run that nothing turns back, with any calls
   * failing: deliveries can settle the room if and only if every mail whose gate
   * differs is still reported, ahead of the walk or in some task's hands, and so is
   * the flag. If not, no run settles it.
   */
  lemma CanSettleIffNothingLost(t: Thread, s0: Live, a: Action, w: Setting, moves: seq<Move>)
    requires LatestMapped(t) && Quiet(t, s0.room) && Tidy(w, s0) && Steady(t, s0.room, a, w) && MovesPossible(w, moves)
    ensures
      var s := Moves(t, ActLive(s0, a), moves);
      && (CanSettle(t, w, s) <==> NothingLost(w, s))
      && (NeverSettles(t, w, s) <==> !NothingLost(w, s))
  {
    var g, start := PlanOf(t, s0.room, a, w), ActLive(s0, a);
    var s := Moves(t, start, moves);
    PlansAreStraight(t, s0.room, a, w);
    ActIsOnTrack(t, s0, a, w);
    RunStaysTidyInCorridor(t, g, start, moves);
    assert g.setting == w && t.latest == Some(g.latest);
    hide Quiet, Steady, Corridor, Straight, Tidy, NothingLost, Settled, Moves, PlanOf;
    if NothingLost(w, s) {
      var more := OnTrackCanSettle(t, g, s);
      DeliveriesBringNothingBack(w, more);
    } else {
      forall more | MovesPossible(w, more) && (forall m | m in more :: BringsNothingBack(m))
        ensures !Settled(Moves(t, s, more).room)
      {
        LostNeverSettles(t, g, s, more);
      }
      forall more | Deliveries(w, more) ensures !Settled(Moves(t, s, more).room) {
        DeliveriesBringNothingBack(w, more);
      }
    }
  }

  lemma DeliveriesBringNothingBack(w: Setting, moves: seq<Move>)
    requires Deliveries(w, moves)
    ensures MovesPossible(w, moves) && forall m | m in moves :: BringsNothingBack(m)
  {
  }

  ghost predicate InTarget(t: Thread, s0: Room, a: Action, s: Room)
    requires LatestMapped(t)
  {
    Settled(s) && s.seen == TargetSeen(t, s0, a) && s.marked == TargetMarked(s0, a)
  }

  /**
   * Where the target is certain, deliveries can settle the room in it if and only
   * if nothing was lost, whatever has happened since the action.
   */
  lemma EveryRunCanSettleIffNothingLost(t: Thread, s0: Live, a: Action, w: Setting, moves: seq<Move>)
    requires LatestMapped(t) && Quiet(t, s0.room) && Tidy(w, s0) && Certain(t, s0.room, a, w) && MovesPossible(w, moves)
    ensures
      var start := ActLive(s0, a);
      (exists more :: Deliveries(w, more) && InTarget(t, s0.room, a, Moves(t, start, moves + more).room))
      <==> NothingLost(w, Moves(t, start, moves))
  {
    var start := ActLive(s0, a);
    var s := Moves(t, start, moves);
    CanSettleIffNothingLost(t, s0, a, w, moves);
    forall more ensures Moves(t, start, moves + more) == Moves(t, s, more) { MovesConcat(t, start, moves, more); }
    hide Quiet, Certain, Tidy, NothingLost, Moves, Settled;
    forall more | Deliveries(w, more) && Settled(Moves(t, s, more).room)
      ensures InTarget(t, s0.room, a, Moves(t, start, moves + more).room)
    {
      DeliveriesBringNothingBack(w, more);
      MovesSettleInTarget(t, s0, a, w, moves + more);
    }
    if NothingLost(w, s) {
      var more :| Deliveries(w, more) && Settled(Moves(t, s, more).room);
      assert InTarget(t, s0.room, a, Moves(t, start, moves + more).room);
    }
  }

  /** Every run that settles does so in the target, where that is certain. */
  lemma MovesSettleInTarget(t: Thread, s0: Live, a: Action, w: Setting, moves: seq<Move>)
    requires LatestMapped(t) && Quiet(t, s0.room) && Certain(t, s0.room, a, w) && MovesPossible(w, moves)
    ensures
      var s := Moves(t, ActLive(s0, a), moves).room;
      Settled(s) ==> InTarget(t, s0.room, a, s)
  {
    MovesAreRun(t, w, ActLive(s0, a), moves);
    SettlesInTarget(t, s0.room, a, w, RoomRun(t, ActLive(s0, a), moves));
    hide Quiet, Certain, Moves, Settled;
  }

  /**
   * From every state whatever: after a restart, and one more report of each mail
   * whose change nobody will bring again, deliveries settle the room.
   */
  lemma CanAlwaysSettle(t: Thread, w: Setting, s: Live, lost: set<Email>) returns (touches: seq<Move>, moves: seq<Move>)
    requires LatestMapped(t)
    requires forall e | Off(s.room, e) :: e in s.reported || (w.walking && e in s.ahead) || e in lost
    ensures (forall m | m in touches :: m.Touch? && m.email in lost) && Deliveries(w, moves)
    ensures Settled(Moves(t, s, [Handler(Crash)] + touches + moves).room)
  {
    var s1 := Go(t, s, Handler(Crash));
    MovesOne(t, s, Handler(Crash));
    assert Rested(s1) && s1.news && s.reported <= s1.reported && s1.ahead == s.ahead;
    touches := TouchAll(t, s1, lost);
    var s2 := Moves(t, s1, touches);
    assert forall e :: Off(s2.room, e) <==> Off(s.room, e);
    hide Moves, Deliveries, Go, Settled;
    moves := SettleRested(t, w, s2);
    MovesConcat(t, s, [Handler(Crash)], touches);
    MovesConcat(t, s, [Handler(Crash)] + touches, moves);
  }

  lemma {:induction false} TouchAll(t: Thread, s: Live, mails: set<Email>) returns (moves: seq<Move>)
    requires s.page.Resting?
    ensures forall m | m in moves :: m.Touch? && m.email in mails
    ensures Moves(t, s, moves) == s.(reported := s.reported + mails)
    decreases |mails|
  {
    if mails == {} {
      moves := [];
      assert s.reported + mails == s.reported;
    } else {
      var e :| e in mails;
      var s1 := Go(t, s, Touch(e));
      var rest := TouchAll(t, s1, mails - {e});
      assert (s.reported + {e}) + (mails - {e}) == s.reported + mails;
      MovesOne(t, s, Touch(e));
      MovesConcat(t, s, [Touch(e)], rest);
      moves := [Touch(e)] + rest;
    }
  }

  /** Some deliveries, run from rest to rest, would change the persistent state. */
  ghost predicate DeliveryPending(t: Thread, w: Setting, s: Live) {
    exists moves :: Deliveries(w, moves) && Rested(Moves(t, s, moves)) && !SameCore(s.room, Moves(t, s, moves).room)
  }

  /** A settled room in which everything that is fetched or read is as the gates say. */
  ghost predicate Calm(s: Room, seen: set<Email>, marked: bool) {
    && s.seen == s.synced == seen && s.marked == s.gated == marked && s.receipts <= seen
    && s.poll.at.Idle? && s.walk.at.Idle? && s.syncer.SyncIdle?
    && IsCurrent(s, s.poll) && IsCurrent(s, s.walk)
    && (s.flagRead.Some? ==> s.flagRead.value == marked)
  }

  lemma CalmStep(t: Thread, s: Room, step: Step, seen: set<Email>, marked: bool)
    requires Calm(s, seen, marked) && Works(step)
    ensures Calm(Next(t, s, step), seen, marked)
  {
  }

  lemma CalmMove(t: Thread, s: Live, m: Move, seen: set<Email>, marked: bool)
    requires Calm(s.room, seen, marked) && Delivers(m)
    ensures Calm(Go(t, s, m).room, seen, marked)
  {
    match m
    case Handler(step) => CalmStep(t, s.room, step, seen, marked); hide Calm, Next;
    case _ =>
  }

  lemma {:induction false} CalmStays(t: Thread, w: Setting, s: Live, moves: seq<Move>, seen: set<Email>, marked: bool)
    requires Calm(s.room, seen, marked) && Deliveries(w, moves)
    ensures Calm(Moves(t, s, moves).room, seen, marked)
    decreases |moves|
  {
    hide Calm, Go, Delivers, MovePossible;
    if moves != [] {
      CalmMove(t, s, moves[0], seen, marked);
      CalmStays(t, w, Go(t, s, moves[0]), moves[1..], seen, marked);
    }
  }

  /** At rest, settled is the same as: nothing was lost and no delivery changes anything any more. */
  lemma SettledIffNothingPending(t: Thread, w: Setting, s: Live)
    requires LatestMapped(t) && Rested(s)
    ensures Settled(s.room) <==> NothingLost(w, s) && !DeliveryPending(t, w, s)
  {
    if Settled(s.room) {
      assert Calm(s.room, s.room.seen, s.room.marked);
      assert NothingLost(w, s);
      hide Moves, Settled, Rested;
      forall moves | Deliveries(w, moves) ensures SameCore(s.room, Moves(t, s, moves).room) {
        CalmStays(t, w, s, moves, s.room.seen, s.room.marked);
      }
    } else if NothingLost(w, s) {
      PendingDelivery(t, w, s);
    }
  }

  lemma PendingDelivery(t: Thread, w: Setting, s: Live)
    requires LatestMapped(t) && Rested(s) && !Settled(s.room) && NothingLost(w, s)
    ensures DeliveryPending(t, w, s)
  {
    RestedIsPending(w, s);
    if s.room.receipts <= s.room.seen {
      var moves := SettleRested(t, w, s);
      var s1 := Moves(t, s, moves);
      hide Moves, Deliveries, NothingLost;
      assert !SameCore(s.room, s1.room) by { RestedIsUndisturbed(s); }
    } else {
      var e :| e in s.room.receipts && e !in s.room.seen;
      var m := Handler(DeliverReceipt(e, true));
      MovesOne(t, s, m);
      assert e in Go(t, s, m).room.seen && Rested(Go(t, s, m)) && Deliveries(w, [m]);
      assert !SameCore(s.room, Moves(t, s, [m]).room);
    }
  }

  /**
   * The plainest loss: the user reads a mail in the mail client, the poll that
   * reports it cannot send the receipt, and the token moves on. Nothing was wrong
   * with the room, the target was certain, and yet no run settles it again.
   */
  lemma FailedReceiptIsForGood(t: Thread, s0: Live, w: Setting, e: Email)
    requires LatestMapped(t) && Rested(s0) && Quiet(t, s0.room) && e !in s0.room.seen
    requires !w.walking && Certain(t, s0.room, MailRead(e), w)
    ensures NeverSettles(t, w, Moves(t, ActLive(s0, MailRead(e)),
      [Ask, FetchPage, Handler(MirrorFails(Poll, e)), SaveToken]))
  {
    var s := ActLive(s0, MailRead(e));
    var moves := [Ask, FetchPage, Handler(MirrorFails(Poll, e)), SaveToken];
    assert s.room.seen == s0.room.seen + {e} && s.room.synced == s0.room.seen;
    MovesFour(t, s, moves[0], moves[1], moves[2], moves[3]);
    assert MailLost(w, Moves(t, s, moves), e);
    CanSettleIffNothingLost(t, s0, MailRead(e), w, moves);
  }
}
