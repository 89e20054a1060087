/**
 The stream hub: internal/server/feed/hub.go.

 `HubState` is the subscriber map with every subscriber's bounded buffer and
 cancellation cause. The functions are the hub's critical sections; the class
 runs them on fields, with the loops of the source.
 */
module HubSections {
  import opened Options
  import opened Sizes
  import opened Fanout

  type TokenId = string
  /** Stands for the pointer a subscribe call allocates. */
  type SubId = nat

  const MAX_STREAM_CONNS := 32
  const STREAM_BUFFER := 64

  datatype Cause = ShuttingDown | PeerGone | InternalError | SlowConsumer | TokenRevoked

  datatype Admission = Admitted | ShuttingDownRefusal | TooManyConnections

  datatype Subscriber = Subscriber(token: TokenId, buffer: seq<Event>, cause: Option<Cause>)

  /** `live` is the hub's map; `subs` also keeps the records a handler still holds
      after they left the map. `closing` is the hub context's cancellation. */
  datatype HubState = HubState(live: set<SubId>, subs: map<SubId, Subscriber>, closing: bool)

  ghost predicate Sound(h: HubState) {
    h.live <= h.subs.Keys && |h.live| <= MAX_STREAM_CONNS && forall s <- h.subs :: |h.subs[s].buffer| <= STREAM_BUFFER
  }

  /** The first cancellation of a context fixes its cause. */
  function Cancelled(s: Subscriber, c: Cause): Subscriber {
    if s.cause.None? then s.(cause := Some(c)) else s
  }

  function CancelAll(h: HubState, ids: set<SubId>, c: Cause): HubState {
    h.(subs := map s | s in h.subs :: if s in ids then Cancelled(h.subs[s], c) else h.subs[s])
  }

  function Unsubscribe(h: HubState, s: SubId): HubState {
    h.(live := h.live - {s})
  }

  predicate Admits(h: HubState) {
    !h.closing && |h.live| < MAX_STREAM_CONNS
  }

  function Subscribe(h: HubState, s: SubId, token: TokenId): HubState {
    if Admits(h) then h.(live := h.live + {s}, subs := h.subs[s := Subscriber(token, [], None)]) else h
  }

  predicate HasRoom(h: HubState, s: SubId) {
    s in h.subs && |h.subs[s].buffer| < STREAM_BUFFER
  }

  /** The locked half of Broadcast: every subscriber with room receives e. */
  function Push(h: HubState, e: Event): HubState {
    h.(subs := map s | s in h.subs ::
         if s in h.live && HasRoom(h, s) then h.subs[s].(buffer := h.subs[s].buffer + [e]) else h.subs[s])
  }

  function Overflowed(h: HubState): set<SubId> {
    set s | s in h.live && !HasRoom(h, s)
  }

  function Evict(h: HubState, ids: set<SubId>): HubState {
    CancelAll(h, ids, SlowConsumer).(live := h.live - ids)
  }

  function Broadcast(h: HubState, e: Event): HubState {
    Evict(Push(h, e), Overflowed(h))
  }

  function BroadcastAll(h: HubState, events: seq<Event>): HubState {
    if events == [] then h
    else Broadcast(BroadcastAll(h, events[..|events| - 1]), events[|events| - 1])
  }

  function Matched(h: HubState, token: TokenId): set<SubId> {
    set s | s in h.live && s in h.subs && h.subs[s].token == token
  }

  function CloseToken(h: HubState, token: TokenId): HubState {
    CancelAll(h, Matched(h, token), TokenRevoked)
  }

  /** Cancelling the hub context cancels every subscriber context below it. */
  function Shutdown(h: HubState): HubState {
    CancelAll(h, h.subs.Keys, ShuttingDown).(closing := true)
  }

  lemma SubscribeKeepsSound(h: HubState, s: SubId, token: TokenId)
    requires Sound(h) && s !in h.subs
    ensures Sound(Subscribe(h, s, token))
  {
  }

  lemma UnsubscribeKeepsSound(h: HubState, s: SubId)
    requires Sound(h)
    ensures Sound(Unsubscribe(h, s))
  {
    SubsetSize(h.live - {s}, h.live);
  }

  lemma PushKeepsSound(h: HubState, e: Event)
    requires Sound(h)
    ensures Sound(Push(h, e))
  {
  }

  lemma EvictKeepsSound(h: HubState, ids: set<SubId>)
    requires Sound(h)
    ensures Sound(Evict(h, ids))
  {
    SubsetSize(h.live - ids, h.live);
  }

  // ------------------------------------------- one subscriber through each section

  /** A cancellation reaches a subscriber that has no cause yet; the first cause stays. */
  ghost predicate CancelledFor(was: Subscriber, becomes: Subscriber, c: Cause) {
    && becomes.token == was.token && becomes.buffer == was.buffer
    && becomes.cause == if was.cause.None? then Some(c) else was.cause
  }

  /** A broadcast, for one subscriber: in the map with room, it receives the payload last;
      in the map without, it is out and cancelled as slow; out of the map, nothing. */
  lemma BroadcastOutcome(h: HubState, e: Event, s: SubId)
    requires Sound(h)
    ensures var k := Broadcast(h, e);
      && k.closing == h.closing && k.subs.Keys == h.subs.Keys
      && (s in k.live <==> s in h.live && |h.subs[s].buffer| < 64)
      && (s in k.live ==> k.subs[s] == Subscriber(h.subs[s].token, h.subs[s].buffer + [e], h.subs[s].cause))
      && (s in h.live && s !in k.live ==> CancelledFor(h.subs[s], k.subs[s], SlowConsumer))
      && (s in h.subs && s !in h.live ==> k.subs[s] == h.subs[s])
  {
  }

  /** A shutdown cancels every subscriber and admits no more. */
  lemma ShutdownOutcome(h: HubState, s: SubId)
    ensures var k := Shutdown(h);
      && k.closing && !Admits(k) && k.live == h.live && k.subs.Keys == h.subs.Keys
      && (s in h.subs ==> CancelledFor(h.subs[s], k.subs[s], ShuttingDown))
  {
  }

  /** A revocation cancels the subscribers of its token that are in the map, and no other. */
  lemma CloseTokenOutcome(h: HubState, token: TokenId, s: SubId)
    requires Sound(h)
    ensures var k := CloseToken(h, token);
      && k.closing == h.closing && k.live == h.live && k.subs.Keys == h.subs.Keys
      && (s in h.subs && s in h.live && h.subs[s].token == token ==> CancelledFor(h.subs[s], k.subs[s], TokenRevoked))
      && (s in h.subs && (s !in h.live || h.subs[s].token != token) ==> k.subs[s] == h.subs[s])
  {
  }

  /** A subscriber is admitted below the cap and before a shutdown, with an empty buffer
      and its token; nothing happens otherwise. */
  lemma SubscribeOutcome(h: HubState, s: SubId, token: TokenId)
    requires s !in h.subs
    ensures if !h.closing && |h.live| < 32
            then Subscribe(h, s, token) == HubState(h.live + {s}, h.subs[s := Subscriber(token, [], None)], false)
            else Subscribe(h, s, token) == h
  {
  }

  /** k is h with some subscribers cancelled and some gone from the map. */
  ghost predicate Thins(h: HubState, k: HubState) {
    && Sound(k) && k.live <= h.live && k.subs.Keys == h.subs.Keys
    && (forall s <- k.subs :: k.subs[s] == h.subs[s].(cause := k.subs[s].cause))
    && (forall s <- k.subs :: k.subs[s].cause.None? ==> h.subs[s].cause.None?)
  }

  lemma CancelThins(h: HubState, ids: set<SubId>, c: Cause)
    requires Sound(h)
    ensures Thins(h, CancelAll(h, ids, c))
  {
  }

  lemma EvictThins(h: HubState, ids: set<SubId>)
    requires Sound(h)
    ensures Thins(h, Evict(h, ids))
  {
    EvictKeepsSound(h, ids);
    CancelThins(h, ids, SlowConsumer);
  }

  lemma UnsubscribeThins(h: HubState, s: SubId)
    requires Sound(h)
    ensures Thins(h, Unsubscribe(h, s))
  {
    UnsubscribeKeepsSound(h, s);
  }

  /** A whole broadcast keeps the connection cap and the buffer bound. */
  lemma BroadcastKeepsSound(h: HubState, e: Event)
    requires Sound(h)
    ensures Sound(Broadcast(h, e))
  {
    PushKeepsSound(h, e);
    EvictKeepsSound(Push(h, e), Overflowed(h));
  }

  lemma CancelOneMore(h: HubState, done: set<SubId>, s: SubId, c: Cause)
    ensures CancelAll(CancelAll(h, done, c), {s}, c) == CancelAll(h, done + {s}, c)
  {
  }

  lemma EvictOneMore(h: HubState, done: set<SubId>, s: SubId)
    ensures Evict(Evict(h, done), {s}) == Evict(h, done + {s})
  {
    CancelOneMore(h, done, s, SlowConsumer);
    assert h.live - done - {s} == h.live - (done + {s});
  }
}

module Hubs {
  import opened Options
  import opened Fanout
  import opened HubSections

  class Hub {
    var live: set<SubId>
    var subs: map<SubId, Subscriber>
    var closing: bool

    ghost function State(): HubState
      reads this
    {
      HubState(live, subs, closing)
    }

    constructor ()
      ensures State() == HubState({}, map[], false)
    {
      live, subs, closing := {}, map[], false;
    }

    /** A shutdown that has begun is refused before a full map is. */
    method Subscribe(id: SubId, token: TokenId) returns (r: Admission)
      requires id !in subs
      modifies this
      ensures r.Admitted? == Admits(old(State())) && (r.ShuttingDownRefusal? <==> old(closing))
      ensures State() == HubSections.Subscribe(old(State()), id, token)
    {
      if closing { return ShuttingDownRefusal; }
      if |live| >= MAX_STREAM_CONNS { return TooManyConnections; }
      live, subs := live + {id}, subs[id := Subscriber(token, [], None)];
      return Admitted;
    }

    method Unsubscribe(s: SubId)
      modifies this
      ensures State() == HubSections.Unsubscribe(old(State()), s)
    {
      live := live - {s};
    }

    method Cancel(s: SubId, c: Cause)
      requires s in subs
      modifies this
      ensures State() == CancelAll(old(State()), {s}, c)
    {
      if subs[s].cause.None? {
        subs := subs[s := subs[s].(cause := Some(c))];
      }
    }

    method CancelEach(ids: set<SubId>, c: Cause)
      requires ids <= subs.Keys
      modifies this
      ensures State() == CancelAll(old(State()), ids, c)
    {
      var rest, done := ids, {};
      while rest != {}
        invariant done + rest == ids && ids <= subs.Keys
        invariant State() == CancelAll(old(State()), done, c)
        decreases rest
      {
        var s :| s in rest;
        CancelOneMore(old(State()), done, s, c);
        Cancel(s, c);
        rest, done := rest - {s}, done + {s};
      }
      assert done == ids;
    }

    method EvictEach(ids: set<SubId>)
      requires ids <= subs.Keys
      modifies this
      ensures State() == Evict(old(State()), ids)
    {
      var rest, done := ids, {};
      while rest != {}
        invariant done + rest == ids && ids <= subs.Keys
        invariant State() == Evict(old(State()), done)
        decreases rest
      {
        var s :| s in rest;
        EvictOneMore(old(State()), done, s);
        Cancel(s, SlowConsumer);
        Unsubscribe(s);
        rest, done := rest - {s}, done + {s};
      }
      assert done == ids;
    }

    /** The locked half: offers e to every subscriber, and collects the full ones. */
    method Offer(e: Event) returns (overflowed: set<SubId>)
      requires live <= subs.Keys
      modifies this
      ensures overflowed == Overflowed(old(State()))
      ensures State() == Push(old(State()), e)
    {
      ghost var before := State();
      overflowed := {};
      var rest := live;
      while rest != {}
        invariant rest <= live == before.live && closing == before.closing
        invariant overflowed == Overflowed(before) - rest
        invariant subs.Keys == before.subs.Keys
        invariant forall s <- rest :: subs[s] == before.subs[s]
        invariant forall s <- subs :: s !in rest ==> subs[s] == Push(before, e).subs[s]
        decreases rest
      {
        var s :| s in rest;
        if |subs[s].buffer| < STREAM_BUFFER {
          subs := subs[s := subs[s].(buffer := subs[s].buffer + [e])];
        } else {
          overflowed := overflowed + {s};
        }
        rest := rest - {s};
      }
      assert subs == Push(before, e).subs;
    }

    method Broadcast(e: Event)
      requires Sound(State())
      modifies this
      ensures State() == HubSections.Broadcast(old(State()), e) && Sound(State())
    {
      BroadcastKeepsSound(State(), e);
      var overflowed := Offer(e);
      EvictEach(overflowed);
    }

    method CloseToken(token: TokenId)
      requires Sound(State())
      modifies this
      ensures State() == HubSections.CloseToken(old(State()), token)
    {
      var matched: set<SubId> := {};
      var rest := live;
      while rest != {}
        invariant rest <= live && State() == old(State())
        invariant matched == Matched(old(State()), token) - rest
        decreases rest
      {
        var s :| s in rest;
        if subs[s].token == token {
          matched := matched + {s};
        }
        rest := rest - {s};
      }
      CancelEach(matched, TokenRevoked);
    }

    method Shutdown()
      modifies this
      ensures State() == HubSections.Shutdown(old(State()))
    {
      CancelEach(subs.Keys, ShuttingDown);
      closing := true;
    }
  }
}
