/**
 The whole feed stream as one transition system: serialised writers with the
 fan-out mutex, the hub, token revocation (service/feed.go), and any number of
 stream handlers (internal/server/feed/stream.go) interleaving freely.

 A run is any sequence of steps; a step that is not enabled changes nothing.
 Three results hold in every reachable state: every healthy stream converges to
 the feed, delivery has no gap, and a revoked token has no open stream.
 */
module Streams {
  import opened Options
  import opened Devices
  import opened Fanout
  import opened HubSections

  /** Where a handler is: authenticated but not subscribed, subscribed, past the
      token re-check, upgraded, holding a snapshot it has not written, in the pump
      loop, or past it. */
  datatype Phase = Authed | Subscribed | Rechecked | Opened | Snapshotted | Pumping | Ended

  /** `start` is how many broadcasts had been made when it subscribed; `taken` is
      what the pump has taken from the buffer to write, in order. */
  datatype Stream = Stream(token: TokenId, phase: Phase, start: nat, snapshot: Option<map<DeviceId, Addrs>>, taken: seq<Event>)

  /** RevokeToken: row deleted, subscribers collected (those still to cancel), done. */
  datatype Revocation = RowDeleted | Closing(left: set<SubId>) | Returned

  /** `sent` is every broadcast so far, `pending` what the writer in flight has
      still to broadcast, `evicting` the overflowed subscribers the current
      broadcast has still to cancel. */
  datatype System = System(
    db: Db, sent: seq<Event>, pending: seq<Event>, evicting: set<SubId>,
    hub: HubState, tokens: set<TokenId>, revoking: map<TokenId, Revocation>, streams: map<SubId, Stream>)

  datatype Step =
    | Write(w: Writer)
    | Dispatch
    | EvictOne(s: SubId)
    | Mint(t: TokenId)
    | Authenticate(s: SubId, t: TokenId)
    | Join(s: SubId)
    | Recheck(s: SubId, storeOk: bool)
    | Accept(s: SubId, ok: bool)
    | ReadSnapshot(s: SubId, ok: bool)
    | WriteSnapshot(s: SubId, ok: bool)
    | Pump(s: SubId, ok: bool)
    | PeerLost(s: SubId)
    | Finish(s: SubId)
    | Leave(s: SubId)
    | RevokeDelete(t: TokenId)
    | RevokeCollect(t: TokenId)
    | RevokeCancel(t: TokenId, s: SubId)
    | RevokeReturn(t: TokenId)
    | ShutDown

  // --------------------------------------------------------------------- steps

  function Init(db: Db): System {
    System(db, [], [], {}, HubState({}, map[], false), {}, map[], map[])
  }

  predicate At(y: System, s: SubId, p: Phase) {
    s in y.streams && y.streams[s].phase == p
  }

  function To(y: System, s: SubId, p: Phase): System
    requires s in y.streams
  {
    y.(streams := y.streams[s := y.streams[s].(phase := p)])
  }

  /** A context cancelled from the handler's side. */
  function Cancel(y: System, s: SubId, c: Cause): System {
    y.(hub := CancelAll(y.hub, {s}, c))
  }

  /** The next writer runs only when the last one has returned. */
  ghost function StepWrite(y: System, w: Writer): System {
    if y.pending == [] && y.evicting == {}
    then y.(db := Perform(y.db, w).db, pending := Perform(y.db, w).events)
    else y
  }

  /** One Broadcast up to the release of the hub lock. */
  function StepDispatch(y: System): System {
    if y.pending != [] && y.evicting == {}
    then y.(sent := y.sent + [y.pending[0]], pending := y.pending[1..],
            evicting := Overflowed(y.hub), hub := Push(y.hub, y.pending[0]))
    else y
  }

  function StepEvict(y: System, s: SubId): System {
    if s in y.evicting then y.(evicting := y.evicting - {s}, hub := Evict(y.hub, {s})) else y
  }

  function StepJoin(y: System, s: SubId): System {
    if !At(y, s, Authed) || s in y.hub.subs then y
    else if Admits(y.hub) then
      To(y, s, Subscribed).(hub := Subscribe(y.hub, s, y.streams[s].token),
                            streams := y.streams[s := y.streams[s].(phase := Subscribed, start := |y.sent|)])
    else To(y, s, Ended)
  }

  /** tokenStillLive: the row is read again now that the subscriber is in the map. */
  function StepRecheck(y: System, s: SubId, storeOk: bool): System {
    if !At(y, s, Subscribed) then y
    else To(y, s, if storeOk && y.streams[s].token in y.tokens then Rechecked else Ended)
  }

  function StepAccept(y: System, s: SubId, ok: bool): System {
    if At(y, s, Rechecked) then To(y, s, if ok then Opened else Ended) else y
  }

  /** A snapshot that cannot be rendered cancels the stream; the pump still runs. */
  function StepReadSnapshot(y: System, s: SubId, ok: bool): System {
    if !At(y, s, Opened) then y
    else if ok then y.(streams := y.streams[s := y.streams[s].(phase := Snapshotted, snapshot := Some(FeedMap(y.db)))])
    else Cancel(To(y, s, Pumping), s, InternalError)
  }

  function StepWriteSnapshot(y: System, s: SubId, ok: bool): System {
    if !At(y, s, Snapshotted) then y
    else if ok then To(y, s, Pumping)
    else Cancel(To(y, s, Pumping), s, PeerGone)
  }

  /** The pump takes one payload; its select may prefer the buffer even after the
      context was cancelled, and a failed write cancels it. */
  function StepPump(y: System, s: SubId, ok: bool): System {
    if !At(y, s, Pumping) || s !in y.hub.subs || y.hub.subs[s].buffer == [] then y
    else
      var sub := y.hub.subs[s];
      var after := y.(hub := y.hub.(subs := y.hub.subs[s := sub.(buffer := sub.buffer[1..])]),
                      streams := y.streams[s := y.streams[s].(taken := y.streams[s].taken + [sub.buffer[0]])]);
      if ok then after else Cancel(To(after, s, Ended), s, PeerGone)
  }

  function StepRevokeCancel(y: System, t: TokenId, s: SubId): System {
    if t in y.revoking && y.revoking[t].Closing? && s in y.revoking[t].left
    then Cancel(y.(revoking := y.revoking[t := Closing(y.revoking[t].left - {s})]), s, TokenRevoked)
    else y
  }

  ghost function Next(y: System, step: Step): System {
    match step
    case Write(w) => StepWrite(y, w)
    case Dispatch => StepDispatch(y)
    case EvictOne(s) => StepEvict(y, s)
    case Mint(t) => if t !in y.revoking then y.(tokens := y.tokens + {t}) else y
    case Authenticate(s, t) =>
      if t in y.tokens && s !in y.streams && s !in y.hub.subs
      then y.(streams := y.streams[s := Stream(t, Authed, 0, None, [])]) else y
    case Join(s) => StepJoin(y, s)
    case Recheck(s, storeOk) => StepRecheck(y, s, storeOk)
    case Accept(s, ok) => StepAccept(y, s, ok)
    case ReadSnapshot(s, ok) => StepReadSnapshot(y, s, ok)
    case WriteSnapshot(s, ok) => StepWriteSnapshot(y, s, ok)
    case Pump(s, ok) => StepPump(y, s, ok)
    case PeerLost(s) =>
      if s in y.streams && y.streams[s].phase in {Opened, Snapshotted, Pumping} then Cancel(y, s, PeerGone) else y
    case Finish(s) =>
      if At(y, s, Pumping) && s in y.hub.subs && y.hub.subs[s].cause.Some? then To(y, s, Ended) else y
    case Leave(s) => if At(y, s, Ended) then y.(hub := Unsubscribe(y.hub, s)) else y
    case RevokeDelete(t) =>
      if t in y.tokens then y.(tokens := y.tokens - {t}, revoking := y.revoking[t := RowDeleted]) else y
    case RevokeCollect(t) =>
      if t in y.revoking && y.revoking[t].RowDeleted?
      then y.(revoking := y.revoking[t := Closing(Matched(y.hub, t))]) else y
    case RevokeCancel(t, s) => StepRevokeCancel(y, t, s)
    case RevokeReturn(t) =>
      if t in y.revoking && y.revoking[t] == Closing({}) then y.(revoking := y.revoking[t := Returned]) else y
    case ShutDown => y.(hub := Shutdown(y.hub))
  }

  ghost function Run(y: System, steps: seq<Step>): System {
    if steps == [] then y else Next(Run(y, steps[..|steps| - 1]), steps[|steps| - 1])
  }

  // ---------------------------------------------------------------- invariants

  function Log(y: System): seq<Event> { y.sent + y.pending }

  /** The last word of everything emitted is the feed. */
  ghost predicate LogIsAccurate(y: System) {
    && Stored(y.db)
    && forall id :: LastWord(Log(y), id).Some? ==> LastWord(Log(y), id).value == FeedAt(y.db, id)
  }

  predicate Joined(y: System, s: SubId) {
    s in y.streams && s in y.hub.subs && y.streams[s].phase != Authed
  }

  function Received(y: System, s: SubId): seq<Event>
    requires Joined(y, s)
  {
    y.streams[s].taken + y.hub.subs[s].buffer
  }

  /** What a stream received is a contiguous run of the broadcasts since it
      subscribed, and all of them while it is in the map and missed none. */
  ghost predicate GapFree(y: System, s: SubId)
    requires Joined(y, s)
  {
    var st := y.streams[s];
    && st.start + |Received(y, s)| <= |y.sent|
    && Received(y, s) == y.sent[st.start..st.start + |Received(y, s)|]
    && (s in y.hub.live && s !in y.evicting ==> st.start + |Received(y, s)| == |y.sent|)
  }

  ghost predicate HubMatches(y: System) {
    && Sound(y.hub)
    && y.evicting <= y.hub.subs.Keys
    && (forall s <- y.hub.subs :: Joined(y, s) && GapFree(y, s) && y.hub.subs[s].token == y.streams[s].token)
    && (forall s <- y.streams :: y.streams[s].phase !in {Authed, Ended} ==> Joined(y, s))
    && (forall s <- y.streams :: y.streams[s].phase == Authed ==>
          s !in y.hub.subs && y.streams[s].snapshot.None? && y.streams[s].taken == [])
  }

  predicate Healthy(y: System, s: SubId) {
    Joined(y, s) && y.hub.subs[s].cause.None? && y.streams[s].phase != Ended
  }

  /** A handler that still runs and was not cancelled is in the map, and one in the
      pump loop has written its snapshot. */
  ghost predicate HealthyIsLive(y: System) {
    && (forall s <- y.streams :: Healthy(y, s) ==> s in y.hub.live)
    && (forall s <- y.streams :: Healthy(y, s) && y.streams[s].phase in {Snapshotted, Pumping} ==> y.streams[s].snapshot.Some?)
  }

  /** For a device no event names since the subscription, the snapshot is current. */
  ghost predicate SnapshotCurrent(y: System, s: SubId)
    requires s in y.streams && y.streams[s].snapshot.Some?
  {
    var st := y.streams[s];
    && st.start <= |y.sent|
    && NoEmptyEntry(st.snapshot.value)
    && forall id :: LastWord(Log(y)[st.start..], id).None? ==> Entry(st.snapshot.value, id) == FeedAt(y.db, id)
  }

  ghost predicate SnapshotsCurrent(y: System) {
    forall s <- y.streams :: y.streams[s].snapshot.Some? ==> SnapshotCurrent(y, s)
  }

  predicate PastRecheck(y: System, s: SubId) {
    Healthy(y, s) && y.streams[s].phase != Subscribed
  }

  /** A healthy stream past the re-check has a live token, or the revocation has
      not collected yet, or it is among those the revocation is about to cancel. */
  ghost predicate RevocationTracks(y: System) {
    && (forall t <- y.revoking :: t !in y.tokens)
    && forall s <- y.streams :: PastRecheck(y, s) ==>
         var t := y.streams[s].token;
         || t in y.tokens
         || (t in y.revoking && y.revoking[t].RowDeleted?)
         || (t in y.revoking && y.revoking[t].Closing? && s in y.revoking[t].left)
  }

  ghost predicate Inv(y: System) {
    LogIsAccurate(y) && HubMatches(y) && HealthyIsLive(y) && SnapshotsCurrent(y) && RevocationTracks(y)
  }

  // -------------------------------------------------------- every step keeps it

  /** The log and the snapshots are untouched. */
  lemma LogFrame(y: System, z: System)
    requires Inv(y) && z.db == y.db && Log(z) == Log(y) && |y.sent| <= |z.sent|
    requires forall s <- z.streams :: z.streams[s].snapshot.Some? ==>
               s in y.streams && z.streams[s].snapshot == y.streams[s].snapshot && z.streams[s].start == y.streams[s].start
    ensures LogIsAccurate(z) && SnapshotsCurrent(z)
  {
    forall s <- z.streams | z.streams[s].snapshot.Some? ensures SnapshotCurrent(z, s) {
      assert SnapshotCurrent(y, s);
    }
  }

  lemma GapFreeFrame(y: System, z: System, s: SubId)
    requires Joined(y, s) && GapFree(y, s) && Joined(z, s) && z.sent == y.sent
    requires z.streams[s].start == y.streams[s].start && Received(z, s) == Received(y, s)
    requires s in z.hub.live && s !in z.evicting ==> s in y.hub.live && s !in y.evicting
    ensures GapFree(z, s)
  {
  }

  /** The subscribers of z received what they had received in y, and no handler starts. */
  ghost predicate SameReceived(y: System, z: System) {
    && z.sent == y.sent && z.hub.subs.Keys == y.hub.subs.Keys && z.streams.Keys == y.streams.Keys
    && (forall s <- z.hub.subs :: s in z.hub.live && s !in z.evicting ==> s in y.hub.live && s !in y.evicting)
    && (forall s <- z.hub.subs :: s in z.streams ==>
         && z.streams[s].start == y.streams[s].start && z.streams[s].token == y.streams[s].token
         && z.hub.subs[s].token == y.hub.subs[s].token
         && z.streams[s].taken + z.hub.subs[s].buffer == y.streams[s].taken + y.hub.subs[s].buffer)
    && (forall s <- z.streams ::
         && (z.streams[s].phase == Authed ==> z.streams[s] == y.streams[s])
         && (y.streams[s].phase == Authed ==> z.streams[s].phase in {Authed, Ended})
         && (y.streams[s].phase == Ended ==> z.streams[s].phase == Ended))
  }

  lemma HubFrame(y: System, z: System)
    requires HubMatches(y) && SameReceived(y, z) && Sound(z.hub) && z.evicting <= z.hub.subs.Keys
    ensures HubMatches(z)
  {
    forall s <- z.hub.subs ensures Joined(z, s) && GapFree(z, s) && z.hub.subs[s].token == z.streams[s].token {
      assert Joined(y, s) && GapFree(y, s);
      assert Received(z, s) == Received(y, s);
      GapFreeFrame(y, z, s);
    }
    forall s <- z.streams | z.streams[s].phase !in {Authed, Ended} ensures Joined(z, s) {
      assert Joined(y, s);
    }
  }

  lemma WriteKeepsLog(y: System, w: Writer)
    requires LogIsAccurate(y) && y.pending == [] && y.evicting == {}
    ensures LogIsAccurate(StepWrite(y, w))
  {
    var z := StepWrite(y, w);
    WriterIsAnnounced(y.db, w);
    WriterKeepsStored(y.db, w);
    assert Log(y) == y.sent;
    forall id ensures LastWord(Log(z), id).Some? ==> LastWord(Log(z), id).value == FeedAt(z.db, id) {
      LastWordOfConcat(y.sent, z.pending, id);
    }
  }

  lemma WriteKeepsSnapshot(y: System, w: Writer, s: SubId)
    requires Stored(y.db) && y.pending == [] && y.evicting == {}
    requires s in y.streams && y.streams[s].snapshot.Some? && SnapshotCurrent(y, s)
    ensures SnapshotCurrent(StepWrite(y, w), s)
  {
    var z, start := StepWrite(y, w), y.streams[s].start;
    WriterIsAnnounced(y.db, w);
    assert Log(y)[start..] == y.sent[start..];
    assert Log(z)[start..] == y.sent[start..] + z.pending;
    forall id | LastWord(Log(z)[start..], id).None? ensures Entry(z.streams[s].snapshot.value, id) == FeedAt(z.db, id) {
      LastWordOfConcat(y.sent[start..], z.pending, id);
    }
  }

  lemma WriteKeepsInv(y: System, w: Writer)
    requires Inv(y)
    ensures Inv(StepWrite(y, w))
  {
    if y.pending == [] && y.evicting == {} {
      var z := StepWrite(y, w);
      WriteKeepsLog(y, w);
      forall s <- z.streams | z.streams[s].snapshot.Some? ensures SnapshotCurrent(z, s) {
        WriteKeepsSnapshot(y, w, s);
      }
      HubFrame(y, z);
    }
  }

  /** A subscriber with room receives the next broadcast; another keeps what it has. */
  lemma PushExtends(y: System, s: SubId)
    requires y.pending != [] && y.evicting == {} && Joined(y, s) && GapFree(y, s)
    ensures Joined(StepDispatch(y), s) && GapFree(StepDispatch(y), s)
  {
    var z := StepDispatch(y);
    var from, n := y.streams[s].start, |Received(y, s)|;
    assert z.sent[from..from + n] == y.sent[from..from + n];
    if s in y.hub.live && HasRoom(y.hub, s) {
      assert Received(z, s) == Received(y, s) + [y.pending[0]];
      assert z.sent[from..from + n + 1] == z.sent[from..from + n] + [y.pending[0]];
    }
  }

  lemma DispatchKeepsInv(y: System)
    requires Inv(y)
    ensures Inv(StepDispatch(y))
  {
    if y.pending != [] && y.evicting == {} {
      var z := StepDispatch(y);
      assert Log(z) == Log(y);
      LogFrame(y, z);
      PushKeepsSound(y.hub, y.pending[0]);
      forall s <- z.hub.subs ensures Joined(z, s) && GapFree(z, s) && z.hub.subs[s].token == z.streams[s].token {
        assert Joined(y, s) && GapFree(y, s);
        PushExtends(y, s);
      }
      assert HubMatches(z);
      assert forall s :: Healthy(z, s) <==> Healthy(y, s);
    }
  }

  /** Steps that only cancel subscribers, or drop ended or cancelled ones from the map. */
  lemma HubStepKeepsInv(y: System, z: System)
    requires Inv(y) && z == y.(hub := z.hub, evicting := z.evicting, revoking := z.revoking) && Thins(y.hub, z.hub)
    requires z.evicting <= y.evicting && forall s :: s in y.evicting && s !in z.evicting ==> s !in z.hub.live
    requires forall s :: s in y.hub.live && s !in z.hub.live ==>
               s in y.streams && (y.streams[s].phase == Ended || z.hub.subs[s].cause.Some?)
    requires RevocationTracks(z)
    ensures Inv(z)
  {
    LogFrame(y, z);
    HubFrame(y, z);
    HealthFrame(y, z);
  }

  lemma HealthFrame(y: System, z: System)
    requires Sound(y.hub) && HealthyIsLive(y) && z.streams == y.streams && Thins(y.hub, z.hub)
    requires forall s :: s in y.hub.live && s !in z.hub.live ==>
               s in y.streams && (y.streams[s].phase == Ended || z.hub.subs[s].cause.Some?)
    ensures HealthyIsLive(z)
  {
    assert forall s <- z.streams :: Healthy(z, s) ==> Healthy(y, s);
  }

  /** The handlers are untouched and no subscriber came back to health. */
  lemma TracksFrame(y: System, z: System)
    requires RevocationTracks(y) && z.streams == y.streams && z.tokens == y.tokens && z.revoking == y.revoking && Thins(y.hub, z.hub)
    ensures RevocationTracks(z)
  {
    forall s <- z.streams | PastRecheck(z, s) ensures PastRecheck(y, s) {
    }
  }

  lemma CancelKeepsInv(y: System, ids: set<SubId>, c: Cause)
    requires Inv(y)
    ensures Inv(y.(hub := CancelAll(y.hub, ids, c)))
  {
    var z := y.(hub := CancelAll(y.hub, ids, c));
    CancelThins(y.hub, ids, c);
    TracksFrame(y, z);
    HubStepKeepsInv(y, z);
  }

  lemma EvictKeepsInv(y: System, s: SubId)
    requires Inv(y)
    ensures Inv(StepEvict(y, s))
  {
    if s in y.evicting {
      var z := StepEvict(y, s);
      EvictThins(y.hub, {s});
      TracksFrame(y, z);
      HubStepKeepsInv(y, z);
    }
  }

  lemma LeaveKeepsInv(y: System, s: SubId)
    requires Inv(y)
    ensures Inv(Next(y, Leave(s)))
  {
    if At(y, s, Ended) {
      var z := y.(hub := Unsubscribe(y.hub, s));
      UnsubscribeThins(y.hub, s);
      TracksFrame(y, z);
      HubStepKeepsInv(y, z);
    }
  }

  lemma FreshSnapshotIsCurrent(y: System, s: SubId, to: Stream)
    requires Inv(y) && Joined(y, s) && to == y.streams[s].(phase := to.phase, snapshot := Some(FeedMap(y.db)))
    ensures SnapshotCurrent(y.(streams := y.streams[s := to]), s)
  {
    assert GapFree(y, s);
    assert forall id :: Entry(FeedMap(y.db), id) == FeedAt(y.db, id);
  }

  lemma PhaseStepKeepsHub(y: System, s: SubId, to: Stream)
    requires HubMatches(y) && s in y.streams && y.streams[s].phase != Ended && to.phase != Authed
    requires y.streams[s].phase == Authed ==> to.phase == Ended
    requires to == y.streams[s].(phase := to.phase, snapshot := to.snapshot)
    ensures HubMatches(y.(streams := y.streams[s := to]))
  {
    HubFrame(y, y.(streams := y.streams[s := to]));
  }

  lemma PhaseStepKeepsHealth(y: System, s: SubId, to: Stream)
    requires HealthyIsLive(y) && RevocationTracks(y)
    requires s in y.streams && y.streams[s].phase != Ended && to.phase != Authed
    requires y.streams[s].phase == Authed ==> to.phase == Ended
    requires to == y.streams[s].(phase := to.phase, snapshot := to.snapshot)
    requires to.phase in {Snapshotted, Pumping} && Healthy(y, s) ==> to.snapshot.Some?
    requires y.streams[s].phase == Subscribed && to.phase !in {Subscribed, Ended} ==> to.token in y.tokens
    ensures HealthyIsLive(y.(streams := y.streams[s := to])) && RevocationTracks(y.(streams := y.streams[s := to]))
  {
    var z := y.(streams := y.streams[s := to]);
    assert Healthy(z, s) ==> Healthy(y, s);
    assert forall q <- z.streams :: q != s ==> Healthy(z, q) == Healthy(y, q);
  }

  /** Steps that move one handler on and touch nothing else but its snapshot. */
  lemma PhaseStepKeepsInv(y: System, s: SubId, to: Stream)
    requires Inv(y) && s in y.streams && y.streams[s].phase != Ended && to.phase != Authed
    requires y.streams[s].phase == Authed ==> to.phase == Ended
    requires to == y.streams[s].(phase := to.phase, snapshot := to.snapshot)
    requires to.snapshot == y.streams[s].snapshot || (to.snapshot == Some(FeedMap(y.db)) && Joined(y, s))
    requires to.phase in {Snapshotted, Pumping} && Healthy(y, s) ==> to.snapshot.Some?
    requires y.streams[s].phase == Subscribed && to.phase !in {Subscribed, Ended} ==> to.token in y.tokens
    ensures Inv(y.(streams := y.streams[s := to]))
  {
    var z := y.(streams := y.streams[s := to]);
    assert Log(z) == Log(y);
    forall q <- z.streams | z.streams[q].snapshot.Some? ensures SnapshotCurrent(z, q) {
      if z.streams[q].snapshot == y.streams[q].snapshot {
        assert SnapshotCurrent(y, q);
      } else {
        FreshSnapshotIsCurrent(y, s, to);
      }
    }
    PhaseStepKeepsHub(y, s, to);
    PhaseStepKeepsHealth(y, s, to);
  }

  lemma AdmittedStaysGapFree(y: System, s: SubId, q: SubId)
    requires At(y, s, Authed) && s !in y.hub.subs && Admits(y.hub) && y.streams[s].taken == [] && y.evicting <= y.hub.subs.Keys
    requires q != s ==> Joined(y, q) && GapFree(y, q)
    ensures Joined(StepJoin(y, s), q) && GapFree(StepJoin(y, s), q)
  {
    if q == s {
      assert Received(StepJoin(y, s), s) == [];
    } else {
      GapFreeFrame(y, StepJoin(y, s), q);
    }
  }

  lemma AdmittedKeepsHub(y: System, s: SubId)
    requires HubMatches(y) && At(y, s, Authed) && s !in y.hub.subs && Admits(y.hub)
    ensures HubMatches(StepJoin(y, s))
  {
    var z := StepJoin(y, s);
    SubscribeKeepsSound(y.hub, s, y.streams[s].token);
    forall q <- z.hub.subs ensures Joined(z, q) && GapFree(z, q) && z.hub.subs[q].token == z.streams[q].token {
      AdmittedStaysGapFree(y, s, q);
    }
    forall q <- z.streams | z.streams[q].phase !in {Authed, Ended} ensures Joined(z, q) {
      assert q != s ==> Joined(y, q);
    }
  }

  lemma AdmittedKeepsHealth(y: System, s: SubId)
    requires HealthyIsLive(y) && RevocationTracks(y)
    requires At(y, s, Authed) && s !in y.hub.subs && Admits(y.hub) && y.streams[s].snapshot.None?
    ensures HealthyIsLive(StepJoin(y, s)) && RevocationTracks(StepJoin(y, s))
  {
    var z := StepJoin(y, s);
    assert z.streams[s].phase == Subscribed && s in z.hub.live;
    assert forall q <- z.streams :: q != s ==> Healthy(z, q) == Healthy(y, q);
  }

  lemma AdmittedKeepsInv(y: System, s: SubId)
    requires Inv(y) && At(y, s, Authed) && s !in y.hub.subs && Admits(y.hub)
    ensures Inv(StepJoin(y, s))
  {
    AdmittedKeepsHub(y, s);
    AdmittedKeepsHealth(y, s);
    LogFrame(y, StepJoin(y, s));
  }

  lemma JoinKeepsInv(y: System, s: SubId)
    requires Inv(y)
    ensures Inv(StepJoin(y, s))
  {
    if At(y, s, Authed) && s !in y.hub.subs {
      if Admits(y.hub) { AdmittedKeepsInv(y, s); } else { PhaseStepKeepsInv(y, s, y.streams[s].(phase := Ended)); }
    }
  }

  lemma PumpKeepsSound(y: System, s: SubId)
    requires Sound(y.hub)
    ensures Sound(StepPump(y, s, true).hub)
  {
  }

  lemma PumpReceivesTheSame(y: System, s: SubId)
    ensures SameReceived(y, StepPump(y, s, true))
  {
    if At(y, s, Pumping) && s in y.hub.subs && y.hub.subs[s].buffer != [] {
      var buffer := y.hub.subs[s].buffer;
      assert [buffer[0]] + buffer[1..] == buffer;
    }
  }

  lemma PumpKeepsHub(y: System, s: SubId)
    requires HubMatches(y)
    ensures HubMatches(StepPump(y, s, true))
  {
    PumpReceivesTheSame(y, s);
    PumpKeepsSound(y, s);
    HubFrame(y, StepPump(y, s, true));
  }

  /** z differs from y only in payloads moved from buffers to pumps. */
  ghost predicate OnlyMovesPayloads(y: System, z: System) {
    && z == y.(hub := z.hub, streams := z.streams) && z.hub.live == y.hub.live
    && z.streams.Keys == y.streams.Keys && z.hub.subs.Keys == y.hub.subs.Keys
    && (forall q <- z.streams :: z.streams[q] == y.streams[q].(taken := z.streams[q].taken))
    && (forall q <- z.hub.subs :: z.hub.subs[q].cause == y.hub.subs[q].cause)
  }

  lemma PumpOnlyMovesPayloads(y: System, s: SubId)
    ensures OnlyMovesPayloads(y, StepPump(y, s, true))
  {
  }

  lemma MovedPayloadsKeepInv(y: System, z: System)
    requires Inv(y) && OnlyMovesPayloads(y, z) && HubMatches(z)
    ensures Inv(z)
  {
    LogFrame(y, z);
    assert forall q :: Healthy(z, q) <==> Healthy(y, q);
  }

  lemma PumpKeepsInv(y: System, s: SubId)
    requires Inv(y)
    ensures Inv(StepPump(y, s, true))
  {
    PumpKeepsHub(y, s);
    PumpOnlyMovesPayloads(y, s);
    MovedPayloadsKeepInv(y, StepPump(y, s, true));
  }

  lemma SnapshotKeepsInv(y: System, s: SubId, ok: bool)
    requires Inv(y)
    ensures Inv(StepReadSnapshot(y, s, ok))
  {
    if At(y, s, Opened) {
      if ok {
        PhaseStepKeepsInv(y, s, y.streams[s].(phase := Snapshotted, snapshot := Some(FeedMap(y.db))));
      } else {
        CancelKeepsInv(y, {s}, InternalError);
        PhaseStepKeepsInv(Cancel(y, s, InternalError), s, y.streams[s].(phase := Pumping));
      }
    }
  }

  lemma WriteSnapshotKeepsInv(y: System, s: SubId, ok: bool)
    requires Inv(y)
    ensures Inv(StepWriteSnapshot(y, s, ok))
  {
    if At(y, s, Snapshotted) {
      PhaseStepKeepsInv(y, s, y.streams[s].(phase := Pumping));
      if !ok { CancelKeepsInv(To(y, s, Pumping), {s}, PeerGone); }
    }
  }

  lemma PumpFailureKeepsInv(y: System, s: SubId)
    requires Inv(y)
    ensures Inv(StepPump(y, s, false))
  {
    PumpKeepsInv(y, s);
    var after := StepPump(y, s, true);
    if At(y, s, Pumping) && s in y.hub.subs && y.hub.subs[s].buffer != [] {
      PhaseStepKeepsInv(after, s, after.streams[s].(phase := Ended));
      CancelKeepsInv(To(after, s, Ended), {s}, PeerGone);
    }
  }

  lemma TokenStepKeepsInv(y: System, z: System)
    requires Inv(y) && z == y.(tokens := z.tokens, revoking := z.revoking)
    requires RevocationTracks(z)
    ensures Inv(z)
  {
    LogFrame(y, z);
    HubFrame(y, z);
    assert forall s :: Healthy(z, s) <==> Healthy(y, s);
  }

  lemma MintKeepsInv(y: System, t: TokenId)
    requires Inv(y)
    ensures Inv(Next(y, Mint(t)))
  {
    TokenStepKeepsInv(y, Next(y, Mint(t)));
  }

  lemma RevokeDeleteKeepsInv(y: System, t: TokenId)
    requires Inv(y)
    ensures Inv(Next(y, RevokeDelete(t)))
  {
    var z := Next(y, RevokeDelete(t));
    assert forall s :: PastRecheck(z, s) ==> PastRecheck(y, s);
    TokenStepKeepsInv(y, z);
  }

  lemma RevokeCollectKeepsInv(y: System, t: TokenId)
    requires Inv(y)
    ensures Inv(Next(y, RevokeCollect(t)))
  {
    var z := Next(y, RevokeCollect(t));
    forall s <- z.streams | PastRecheck(z, s) && z.streams[s].token == t ensures s in Matched(y.hub, t) {
      assert PastRecheck(y, s);
    }
    assert forall s :: PastRecheck(z, s) ==> PastRecheck(y, s);
    TokenStepKeepsInv(y, z);
  }

  lemma RevokeReturnKeepsInv(y: System, t: TokenId)
    requires Inv(y)
    ensures Inv(Next(y, RevokeReturn(t)))
  {
    var z := Next(y, RevokeReturn(t));
    assert forall s :: PastRecheck(z, s) ==> PastRecheck(y, s);
    TokenStepKeepsInv(y, z);
  }

  lemma RevokeCancelTracks(y: System, t: TokenId, s: SubId)
    requires RevocationTracks(y)
    ensures RevocationTracks(StepRevokeCancel(y, t, s))
  {
    var z := StepRevokeCancel(y, t, s);
    if z != y {
      assert !PastRecheck(z, s);
      forall q <- z.streams | PastRecheck(z, q) ensures PastRecheck(y, q) && q != s {
      }
    }
  }

  lemma RevokeCancelKeepsInv(y: System, t: TokenId, s: SubId)
    requires Inv(y)
    ensures Inv(StepRevokeCancel(y, t, s))
  {
    if t in y.revoking && y.revoking[t].Closing? && s in y.revoking[t].left {
      RevokeCancelTracks(y, t, s);
      CancelThins(y.hub, {s}, TokenRevoked);
      HubStepKeepsInv(y, StepRevokeCancel(y, t, s));
    }
  }

  lemma NewcomerKeepsHub(y: System, z: System, s: SubId, t: TokenId)
    requires HubMatches(y) && s !in y.streams && s !in y.hub.subs
    requires z == y.(streams := y.streams[s := Stream(t, Authed, 0, None, [])])
    ensures HubMatches(z)
  {
    forall q <- z.hub.subs ensures Joined(z, q) && GapFree(z, q) && z.hub.subs[q].token == z.streams[q].token {
      assert Joined(y, q) && GapFree(y, q);
      assert Received(z, q) == Received(y, q);
    }
    forall q <- z.streams | z.streams[q].phase !in {Authed, Ended} ensures Joined(z, q) {
      assert Joined(y, q);
    }
  }

  lemma NewcomerKeepsHealth(y: System, z: System, s: SubId, t: TokenId)
    requires HealthyIsLive(y) && RevocationTracks(y) && s !in y.streams && s !in y.hub.subs
    requires z == y.(streams := y.streams[s := Stream(t, Authed, 0, None, [])])
    ensures HealthyIsLive(z) && RevocationTracks(z)
  {
    assert forall q :: Healthy(z, q) <==> Healthy(y, q);
  }

  lemma AuthenticateKeepsInv(y: System, s: SubId, t: TokenId)
    requires Inv(y)
    ensures Inv(Next(y, Authenticate(s, t)))
  {
    if t in y.tokens && s !in y.streams && s !in y.hub.subs {
      var z := y.(streams := y.streams[s := Stream(t, Authed, 0, None, [])]);
      LogFrame(y, z);
      NewcomerKeepsHub(y, z, s, t);
      NewcomerKeepsHealth(y, z, s, t);
    }
  }

  lemma RecheckKeepsInv(y: System, s: SubId, storeOk: bool)
    requires Inv(y)
    ensures Inv(StepRecheck(y, s, storeOk))
  {
    if At(y, s, Subscribed) {
      PhaseStepKeepsInv(y, s, y.streams[s].(phase := if storeOk && y.streams[s].token in y.tokens then Rechecked else Ended));
    }
  }

  lemma AcceptKeepsInv(y: System, s: SubId, ok: bool)
    requires Inv(y)
    ensures Inv(StepAccept(y, s, ok))
  {
    if At(y, s, Rechecked) { PhaseStepKeepsInv(y, s, y.streams[s].(phase := if ok then Opened else Ended)); }
  }

  lemma ShutDownKeepsInv(y: System)
    requires Inv(y)
    ensures Inv(Next(y, ShutDown))
  {
    var z := y.(hub := Shutdown(y.hub));
    CancelThins(y.hub, y.hub.subs.Keys, ShuttingDown);
    assert Thins(y.hub, z.hub);
    TracksFrame(y, z);
    HubStepKeepsInv(y, z);
  }

  predicate IsHubStep(step: Step) {
    step.Write? || step.Dispatch? || step.EvictOne? || step.Leave? || step.PeerLost? || step.ShutDown?
  }

  predicate IsTokenStep(step: Step) {
    step.Mint? || step.Authenticate? || step.RevokeDelete? || step.RevokeCollect? || step.RevokeCancel? || step.RevokeReturn?
  }

  lemma HubStepsKeepInv(y: System, step: Step)
    requires Inv(y) && IsHubStep(step)
    ensures Inv(Next(y, step))
  {
    match step
    case Write(w) => WriteKeepsInv(y, w);
    case Dispatch => DispatchKeepsInv(y);
    case EvictOne(s) => EvictKeepsInv(y, s);
    case Leave(s) => LeaveKeepsInv(y, s);
    case PeerLost(s) => CancelKeepsInv(y, {s}, PeerGone);
    case ShutDown => ShutDownKeepsInv(y);
  }

  lemma TokenStepsKeepInv(y: System, step: Step)
    requires Inv(y) && IsTokenStep(step)
    ensures Inv(Next(y, step))
  {
    match step
    case Mint(t) => MintKeepsInv(y, t);
    case Authenticate(s, t) => AuthenticateKeepsInv(y, s, t);
    case RevokeDelete(t) => RevokeDeleteKeepsInv(y, t);
    case RevokeCollect(t) => RevokeCollectKeepsInv(y, t);
    case RevokeCancel(t, s) => RevokeCancelKeepsInv(y, t, s);
    case RevokeReturn(t) => RevokeReturnKeepsInv(y, t);
  }

  lemma HandlerStepsKeepInv(y: System, step: Step)
    requires Inv(y) && !IsHubStep(step) && !IsTokenStep(step)
    ensures Inv(Next(y, step))
  {
    match step
    case Join(s) => JoinKeepsInv(y, s);
    case Recheck(s, storeOk) => RecheckKeepsInv(y, s, storeOk);
    case Accept(s, ok) => AcceptKeepsInv(y, s, ok);
    case ReadSnapshot(s, ok) => SnapshotKeepsInv(y, s, ok);
    case WriteSnapshot(s, ok) => WriteSnapshotKeepsInv(y, s, ok);
    case Pump(s, ok) => if ok { PumpKeepsInv(y, s); } else { PumpFailureKeepsInv(y, s); }
    case Finish(s) => if At(y, s, Pumping) { PhaseStepKeepsInv(y, s, y.streams[s].(phase := Ended)); }
  }

  lemma StepKeepsInv(y: System, step: Step)
    requires Inv(y)
    ensures Inv(Next(y, step))
  {
    if IsHubStep(step) { HubStepsKeepInv(y, step); }
    else if IsTokenStep(step) { TokenStepsKeepInv(y, step); }
    else { HandlerStepsKeepInv(y, step); }
  }

  lemma InitKeepsInv(db: Db)
    requires Stored(db)
    ensures Inv(Init(db))
  {
  }

  lemma {:induction false} RunKeepsInv(db: Db, steps: seq<Step>)
    requires Stored(db)
    ensures Inv(Run(Init(db), steps))
  {
    if steps == [] {
      InitKeepsInv(db);
    } else {
      RunKeepsInv(db, steps[..|steps| - 1]);
      StepKeepsInv(Run(Init(db), steps[..|steps| - 1]), steps[|steps| - 1]);
    }
  }

  // -------------------------------------------------------------- main results

  lemma ReplayReachesFeed(y: System, s: SubId)
    requires Inv(y) && Healthy(y, s) && y.streams[s].phase == Pumping && s !in y.evicting
    ensures Replay(y.streams[s].snapshot.value, Received(y, s) + y.pending) == FeedMap(y.db)
  {
    var st := y.streams[s];
    var events := Received(y, s) + y.pending;
    assert SnapshotCurrent(y, s) && GapFree(y, s);
    assert events == Log(y)[st.start..];
    forall id ensures Entry(Replay(st.snapshot.value, events), id) == Entry(FeedMap(y.db), id) {
      ReplayKeepsLastWord(st.snapshot.value, events, id);
      assert Log(y) == Log(y)[..st.start] + events;
      LastWordOfConcat(Log(y)[..st.start], events, id);
    }
    ReplayKeepsLastWord(st.snapshot.value, events, "");
    EntriesDetermineReplica(Replay(st.snapshot.value, events), FeedMap(y.db));
  }

  /** Convergence. In every reachable state, a stream in its pump loop that has not
      been cancelled and is not about to be evicted holds exactly the feed once what
      is buffered for it and still unsent is applied, whenever its snapshot was read;
      with nothing buffered and no writer in flight, it holds the feed already. */
  lemma StreamsConverge(db: Db, steps: seq<Step>, s: SubId)
    requires Stored(db)
    ensures var y := Run(Init(db), steps);
      Healthy(y, s) && y.streams[s].phase == Pumping && s !in y.evicting ==>
        && y.streams[s].snapshot.Some?
        && Replay(y.streams[s].snapshot.value, Received(y, s) + y.pending) == FeedMap(y.db)
        && (y.hub.subs[s].buffer == [] && y.pending == [] ==>
              Replay(y.streams[s].snapshot.value, y.streams[s].taken) == FeedMap(y.db))
  {
    RunKeepsInv(db, steps);
    var y := Run(Init(db), steps);
    if Healthy(y, s) && y.streams[s].phase == Pumping && s !in y.evicting {
      ReplayReachesFeed(y, s);
      if y.hub.subs[s].buffer == [] && y.pending == [] {
        assert Received(y, s) + y.pending == y.streams[s].taken;
      }
    }
  }

  /** Delivery. What a subscriber received is a contiguous run of the broadcasts
      since it subscribed; one that missed a payload is out of the map and cancelled
      or ended before the next broadcast; and the map never holds more than 32. */
  lemma DeliveryHasNoGap(db: Db, steps: seq<Step>, s: SubId)
    requires Stored(db)
    ensures var y := Run(Init(db), steps);
      && |y.hub.live| <= MAX_STREAM_CONNS
      && (s in y.hub.subs ==>
            && Joined(y, s)
            && y.streams[s].start + |Received(y, s)| <= |y.sent|
            && Received(y, s) == y.sent[y.streams[s].start..y.streams[s].start + |Received(y, s)|]
            && (y.evicting == {} && y.streams[s].start + |Received(y, s)| < |y.sent| ==>
                  s !in y.hub.live && !Healthy(y, s)))
  {
    RunKeepsInv(db, steps);
    var y := Run(Init(db), steps);
    if s in y.hub.subs {
      assert GapFree(y, s);
    }
  }

  /** Revocation. Once RevokeToken has returned, every handler of the token is not
      yet past its re-check, and will be refused by it, or is over, or is cancelled. */
  lemma RevocationIsComplete(db: Db, steps: seq<Step>, t: TokenId, s: SubId, storeOk: bool)
    requires Stored(db)
    ensures var y := Run(Init(db), steps);
      t in y.revoking && y.revoking[t].Returned? && s in y.streams && y.streams[s].token == t ==>
        || y.streams[s].phase in {Authed, Ended}
        || (y.streams[s].phase == Subscribed && At(Next(y, Recheck(s, storeOk)), s, Ended))
        || (s in y.hub.subs && y.hub.subs[s].cause.Some?)
  {
    RunKeepsInv(db, steps);
  }
}
