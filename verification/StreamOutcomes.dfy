/**
 One stream through its life when nothing else moves: it opens with the feed as it
 stands, hands on what is broadcast, and ends with its token.
 */
module StreamOutcomes {
  import opened Options
  import opened Devices
  import opened Fanout
  import opened HubSections
  import opened Streams

  lemma StreamJoins(y: System, s: SubId, t: TokenId)
    requires t in y.tokens && s !in y.streams && s !in y.hub.subs && !y.hub.closing && |y.hub.live| < 32
    ensures Next(Next(y, Authenticate(s, t)), Join(s))
         == y.(hub := HubState(y.hub.live + {s}, y.hub.subs[s := Subscriber(t, [], None)], false),
               streams := y.streams[s := Stream(t, Subscribed, |y.sent|, None, [])])
  {
    assert Next(y, Authenticate(s, t)) == y.(streams := y.streams[s := Stream(t, Authed, 0, None, [])]);
  }

  lemma StreamIsAccepted(y: System, s: SubId, st: Stream)
    requires s in y.streams && y.streams[s] == st && st.phase == Subscribed && st.token in y.tokens
    ensures Next(Next(y, Recheck(s, true)), Accept(s, true)) == y.(streams := y.streams[s := st.(phase := Opened)])
  {
    assert Next(y, Recheck(s, true)) == y.(streams := y.streams[s := st.(phase := Rechecked)]);
  }

  lemma StreamSnapshots(y: System, s: SubId, st: Stream)
    requires s in y.streams && y.streams[s] == st && st.phase == Opened
    ensures Next(Next(y, ReadSnapshot(s, true)), WriteSnapshot(s, true))
         == y.(streams := y.streams[s := st.(phase := Pumping, snapshot := Some(FeedMap(y.db)))])
  {
    assert Next(y, ReadSnapshot(s, true)) == y.(streams := y.streams[s := st.(phase := Snapshotted, snapshot := Some(FeedMap(y.db)))]);
  }

  /** A live token below the cap opens a stream: in the map with an empty buffer, its
      snapshot the feed as it stands, from this broadcast on. */
  lemma StreamOpens(y: System, s: SubId, t: TokenId)
    requires t in y.tokens && s !in y.streams && s !in y.hub.subs && !y.hub.closing && |y.hub.live| < 32
    ensures var joined := Next(Next(y, Authenticate(s, t)), Join(s));
      var accepted := Next(Next(joined, Recheck(s, true)), Accept(s, true));
      var z := Next(Next(accepted, ReadSnapshot(s, true)), WriteSnapshot(s, true));
      && s in z.streams && z.streams[s] == Stream(t, Pumping, |y.sent|, Some(FeedMap(y.db)), [])
      && s in z.hub.live && s in z.hub.subs && z.hub.subs[s] == Subscriber(t, [], None)
      && z.db == y.db && z.sent == y.sent && z.pending == y.pending
  {
    StreamJoins(y, s, t);
    var joined := Next(Next(y, Authenticate(s, t)), Join(s));
    StreamIsAccepted(joined, s, joined.streams[s]);
    var accepted := Next(Next(joined, Recheck(s, true)), Accept(s, true));
    StreamSnapshots(accepted, s, accepted.streams[s]);
  }

  /** A full hub, a hub that shuts down, a token that is gone by the second look, and a
      store that fails there: the handler is over before it sends anything. */
  lemma StreamIsRefused(y: System, s: SubId, storeOk: bool)
    requires s in y.streams
    ensures y.streams[s].phase == Authed && s !in y.hub.subs && (y.hub.closing || |y.hub.live| >= 32) ==>
              Next(y, Join(s)).streams[s] == y.streams[s].(phase := Ended) && Next(y, Join(s)).hub == y.hub
    ensures y.streams[s].phase == Subscribed && (!storeOk || y.streams[s].token !in y.tokens) ==>
              Next(y, Recheck(s, storeOk)).streams[s] == y.streams[s].(phase := Ended)
  {
  }

  /** The next payload in line goes to every subscriber in the map that has room, and
      those without are the ones to evict. */
  lemma DispatchOutcome(y: System, s: SubId)
    requires y.pending != [] && y.evicting == {} && Sound(y.hub)
    ensures var z := Next(y, Dispatch);
      && z.sent == y.sent + [y.pending[0]] && z.pending == y.pending[1..] && z.db == y.db && z.streams == y.streams
      && (s in z.evicting <==> s in y.hub.live && |y.hub.subs[s].buffer| >= 64)
      && (s in y.hub.subs ==>
            s in z.hub.subs
            && z.hub.subs[s].buffer == if s in y.hub.live && |y.hub.subs[s].buffer| < 64 then y.hub.subs[s].buffer + [y.pending[0]]
                                       else y.hub.subs[s].buffer)
  {
  }

  /** Each subscriber to evict is cancelled as slow and leaves the map, and after the last
      the next payload may go. */
  lemma EvictOutcome(y: System, s: SubId)
    requires s in y.evicting && s in y.hub.subs
    ensures var z := Next(y, EvictOne(s));
      && z.evicting == y.evicting - {s} && z.hub.live == y.hub.live - {s}
      && s in z.hub.subs && CancelledFor(y.hub.subs[s], z.hub.subs[s], SlowConsumer)
      && (forall q <- y.hub.subs :: q != s ==> q in z.hub.subs && z.hub.subs[q] == y.hub.subs[q])
      && z.db == y.db && z.sent == y.sent && z.pending == y.pending && z.streams == y.streams
  {
  }

  /** Before the first step the hub is empty and admits. */
  lemma StartAdmits(db: Db)
    ensures Admits(Init(db).hub) && Init(db).hub.subs == map[] && Init(db).sent == [] == Init(db).pending && Init(db).db == db
  {
  }

  /** A writer that is not held up changes the tables and hands over its events. */
  lemma WriteOutcome(y: System, w: Writer)
    requires y.pending == [] && y.evicting == {}
    ensures Next(y, Write(w)) == y.(db := Perform(y.db, w).db, pending := Perform(y.db, w).events)
  {
  }

  /** The pump takes payloads from the front, one at a time; a write that fails ends it. */
  lemma PumpOutcome(y: System, s: SubId, ok: bool)
    requires s in y.streams && y.streams[s].phase == Pumping && s in y.hub.subs && y.hub.subs[s].buffer != []
    ensures var z, was := Next(y, Pump(s, ok)), y.hub.subs[s];
      && z.streams[s].taken == y.streams[s].taken + [was.buffer[0]] && z.hub.subs[s].buffer == was.buffer[1..]
      && (ok ==> z.streams[s].phase == Pumping && z.hub.subs[s].cause == was.cause)
      && (!ok ==> z.streams[s].phase == Ended && z.hub.subs[s].cause == if was.cause.None? then Some(PeerGone) else was.cause)
      && z.db == y.db && z.sent == y.sent && z.hub.live == y.hub.live
  {
  }

  /** A peer that goes away cancels its stream once the connection is open; the cause of a
      stream that was cancelled before stays. */
  lemma PeerLostOutcome(y: System, s: SubId)
    requires s in y.streams && s in y.hub.subs
    ensures var z, was := Next(y, PeerLost(s)), y.hub.subs[s];
      && z.streams == y.streams && z.hub.live == y.hub.live && s in z.hub.subs
      && z.hub.subs[s].cause == if was.cause.None? && (y.streams[s].phase == Opened || y.streams[s].phase == Snapshotted || y.streams[s].phase == Pumping)
                                then Some(PeerGone) else was.cause
  {
  }

  lemma RevocationCancels(y: System, t: TokenId, s: SubId)
    requires t in y.tokens && s in y.hub.live && s in y.hub.subs && y.hub.subs[s].token == t
    ensures var z := Next(Next(Next(y, RevokeDelete(t)), RevokeCollect(t)), RevokeCancel(t, s));
      && t !in z.tokens && z.streams == y.streams && z.hub.live == y.hub.live && s in z.hub.subs
      && z.hub.subs[s].cause == (if y.hub.subs[s].cause.None? then Some(TokenRevoked) else y.hub.subs[s].cause)
      && z.revoking[t] == Closing((set q | q in y.hub.live && q in y.hub.subs && y.hub.subs[q].token == t) - {s})
  {
  }

  /** A revocation ends an open stream of its token: cancelled, over, out of the map. */
  lemma RevocationEndsStream(y: System, t: TokenId, s: SubId)
    requires t in y.tokens && s in y.hub.live && s in y.hub.subs && y.hub.subs[s].token == t
    requires s in y.streams && y.streams[s].phase == Pumping
    ensures var cancelled := Next(Next(Next(y, RevokeDelete(t)), RevokeCollect(t)), RevokeCancel(t, s));
      var z := Next(Next(cancelled, Finish(s)), Leave(s));
      && t !in z.tokens && s in z.streams && z.streams[s].phase == Ended && s !in z.hub.live
      && s in z.hub.subs && (y.hub.subs[s].cause.None? ==> z.hub.subs[s].cause == Some(TokenRevoked))
  {
    RevocationCancels(y, t, s);
    var cancelled := Next(Next(Next(y, RevokeDelete(t)), RevokeCollect(t)), RevokeCancel(t, s));
    assert cancelled.hub.subs[s].cause.Some?;
    assert At(Next(cancelled, Finish(s)), s, Ended);
  }
}
