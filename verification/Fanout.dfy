/**
 Feed membership and the events that announce it: internal/server/fanout.go,
 inFeed and flipDisabled in internal/server/service/feed.go, the membership seams
 of admin.go and device.go, and the renderers of internal/server/notify/payload.go.

 A writer is one service call run to completion: its store write, then its
 broadcasts in order. `Perform` gives both; the lemmas prove that the last word
 the events say about a device is always what ListFeed says about it.
 */
module Fanout {
  import opened Options
  import opened Devices

  // -------------------------------------------------------------------- events

  datatype Kind = IpChanged | Added | Removed

  /** One rendered payload. `id` is the history row id for IpChanged and the
      feed_state sequence number otherwise; consumers dedupe on (kind, id). */
  datatype Event = Event(kind: Kind, id: nat, device: DeviceId, current: Addrs, previous: Addrs)

  function RenderIPChanged(id: nat, d: DeviceId, previous: Addrs, current: Addrs): Event {
    Event(IpChanged, id, d, current, previous)
  }

  function RenderAdded(seqNo: nat, id: DeviceId, d: Device): Event {
    Event(Added, seqNo, id, d.Pair(), NO_ADDRS)
  }

  function RenderRemoved(seqNo: nat, id: DeviceId, d: Device): Event {
    Event(Removed, seqNo, id, NO_ADDRS, d.Pair())
  }

  // ---------------------------------------------------------------- membership

  predicate InFeed(d: Device, ownerDisabled: bool) {
    !d.disabled && !ownerDisabled && d.Pair() != NO_ADDRS
  }

  predicate Member(db: Db, id: DeviceId) {
    id in db.devices && db.devices[id].owner in db.users && InFeed(db.devices[id], db.users[db.devices[id].owner])
  }

  /** ListFeed: the members and their addresses. */
  function FeedMap(db: Db): map<DeviceId, Addrs> {
    map d | d in db.devices && Member(db, d) :: db.devices[d].Pair()
  }

  /** What the feed says about one device; all-empty when it is not a member. */
  function FeedAt(db: Db, id: DeviceId): Addrs {
    if Member(db, id) then db.devices[id].Pair() else NO_ADDRS
  }

  /** emitMembership: the event of a flip from `before` to `after`, if any. */
  function Flip(seqNo: nat, id: DeviceId, d: Device, before: bool, after: bool): seq<Event> {
    if !before && after then [RenderAdded(seqNo, id, d)]
    else if before && !after then [RenderRemoved(seqNo, id, d)]
    else []
  }

  /** The flips of several devices in the order they were listed. */
  function Flips(seqNo: nat, db: Db, listed: seq<DeviceId>, wasDisabled: bool, staysMember: bool, isDisabled: bool): seq<Event>
    requires forall d <- listed :: d in db.devices
    decreases |listed|
  {
    if listed == [] then []
    else
      var id := listed[|listed| - 1];
      var d := db.devices[id];
      var sent := Flips(seqNo, db, listed[..|listed| - 1], wasDisabled, staysMember, isDisabled);
      sent + Flip(seqNo + |sent|, id, d, InFeed(d, wasDisabled), staysMember && InFeed(d, isDisabled))
  }

  // ------------------------------------------------------------------- writers

  datatype Writer =
    | CheckIn(device: DeviceId, report: Addrs, now: int)
    | Expire(device: DeviceId, v4Due: bool, v6Due: bool, now: int)
    | SetEnabled(device: DeviceId, disabled: bool)
    | Remove(device: DeviceId)
    | SetUserDisabled(user: UserId, isDisabled: bool, listed: seq<DeviceId>)
    | RemoveUser(user: UserId, listed: seq<DeviceId>)
    | Enroll(device: DeviceId, owner: UserId)
    | CreateUser(user: UserId)
    | Retain(doomed: set<nat>)

  datatype Effect = Effect(db: Db, events: seq<Event>)

  /** ListByUser: every device of u, once, in some order. */
  ghost predicate ListsDevicesOf(db: Db, u: UserId, listed: seq<DeviceId>) {
    && (forall d :: d in listed <==> d in db.devices && db.devices[d].owner == u)
    && (forall i, j :: 0 <= i < j < |listed| ==> listed[i] != listed[j])
  }

  /** The liveness half of request authentication: a check-in reaches the service
      only for an enabled device of an enabled account. */
  predicate Authenticated(db: Db, id: DeviceId) {
    id in db.devices && !db.devices[id].disabled && db.devices[id].owner in db.users && !db.users[db.devices[id].owner]
  }

  /** A check-in past authentication. */
  function PerformCheckIn(db: Db, id: DeviceId, report: Addrs, now: int): Effect
    requires id in db.devices
  {
    var stored := db.devices[id].Pair();
    var after := Devices.CheckIn(db, id, report, now);
    if Merge(stored, report) == stored then Effect(after, [])
    else Effect(after.(feedSeq := db.feedSeq + 1),
                [RenderIPChanged(db.nextId, id, stored, Merge(stored, report))])
  }

  /** fanout.ExpireAddresses on the candidate row the sweep read earlier. */
  function PerformExpiry(db: Db, id: DeviceId, candidate: Device, v4Due: bool, v6Due: bool, now: int): Effect {
    var pinV4, pinV6 := candidate.v4.confirmedAt, candidate.v6.confirmedAt;
    if ExpiryApplies(db, id, v4Due, v6Due, pinV4, pinV6) then
      var after := candidate.(v4 := candidate.v4.Expired(v4Due), v6 := candidate.v6.Expired(v6Due));
      Effect(ExpireFamilies(db, id, v4Due, v6Due, pinV4, pinV6, now).(feedSeq := db.feedSeq + 1),
             [RenderIPChanged(db.nextId, id, candidate.Pair(), after.Pair())])
    else Effect(db, [])
  }

  function PerformSetEnabled(db: Db, id: DeviceId, disabled: bool): Effect
    requires id in db.devices && db.devices[id].owner in db.users
  {
    var dev := db.devices[id];
    var owner := db.users[dev.owner];
    var after := dev.(disabled := disabled);
    var events := Flip(db.feedSeq + 1, id, after, InFeed(dev, owner), InFeed(after, owner));
    Effect(db.(devices := db.devices[id := after], feedSeq := db.feedSeq + |events|), events)
  }

  function PerformRemove(db: Db, id: DeviceId): Effect
    requires id in db.devices && db.devices[id].owner in db.users
  {
    var dev := db.devices[id];
    var events := Flip(db.feedSeq + 1, id, dev, InFeed(dev, db.users[dev.owner]), false);
    Effect(DeleteDevice(db, id).(feedSeq := db.feedSeq + |events|), events)
  }

  function PerformSetUserDisabled(db: Db, u: UserId, disabled: bool, listed: seq<DeviceId>): Effect
    requires u in db.users && forall d <- listed :: d in db.devices
  {
    var events := Flips(db.feedSeq + 1, db, listed, db.users[u], true, disabled);
    Effect(db.(users := db.users[u := disabled], feedSeq := db.feedSeq + |events|), events)
  }

  function PerformRemoveUser(db: Db, u: UserId, listed: seq<DeviceId>): Effect
    requires u in db.users && forall d <- listed :: d in db.devices
  {
    var events := Flips(db.feedSeq + 1, db, listed, db.users[u], false, false);
    Effect(DeleteUser(db, u).(feedSeq := db.feedSeq + |events|), events)
  }

  /** Retention deletes any history rows except the newest of each device. */
  ghost predicate SparesNewest(db: Db, doomed: set<nat>) {
    forall d, h :: IsNewest(db, d, h) ==> h !in doomed
  }

  /** One writer, run to completion. A call the service refuses changes nothing. */
  ghost function Perform(db: Db, w: Writer): Effect {
    match w
    case CheckIn(d, report, now) =>
      if Authenticated(db, d) then PerformCheckIn(db, d, report, now) else Effect(db, [])
    case Expire(d, v4Due, v6Due, now) =>
      if Authenticated(db, d) then PerformExpiry(db, d, db.devices[d], v4Due, v6Due, now) else Effect(db, [])
    case SetEnabled(d, disabled) =>
      if d in db.devices && db.devices[d].owner in db.users then PerformSetEnabled(db, d, disabled) else Effect(db, [])
    case Remove(d) =>
      if d in db.devices && db.devices[d].owner in db.users then PerformRemove(db, d) else Effect(db, [])
    case SetUserDisabled(u, disabled, listed) =>
      if u in db.users && ListsDevicesOf(db, u, listed) then PerformSetUserDisabled(db, u, disabled, listed) else Effect(db, [])
    case RemoveUser(u, listed) =>
      if u in db.users && ListsDevicesOf(db, u, listed) then PerformRemoveUser(db, u, listed) else Effect(db, [])
    case Enroll(d, owner) =>
      if d !in db.devices && owner in db.users
      then Effect(db.(devices := db.devices[d := Device(owner, false, Family("", 0, 0), Family("", 0, 0))]), [])
      else Effect(db, [])
    case CreateUser(u) =>
      if u !in db.users then Effect(db.(users := db.users[u := false]), []) else Effect(db, [])
    case Retain(doomed) =>
      if SparesNewest(db, doomed) then Effect(db.(history := db.history - doomed), []) else Effect(db, [])
  }

  // ----------------------------------------------------- what the events say

  /** The `current` of the last event about a device, if any event names it. */
  function LastWord(events: seq<Event>, id: DeviceId): Option<Addrs> {
    if events == [] then None
    else if events[|events| - 1].device == id then Some(events[|events| - 1].current)
    else LastWord(events[..|events| - 1], id)
  }

  lemma {:induction false} LastWordOfConcat(a: seq<Event>, b: seq<Event>, id: DeviceId)
    ensures LastWord(a + b, id) == if LastWord(b, id).Some? then LastWord(b, id) else LastWord(a, id)
  {
    if b == [] {
      assert a + b == a;
    } else {
      assert (a + b)[..|a + b| - 1] == a + b[..|b| - 1];
      LastWordOfConcat(a, b[..|b| - 1], id);
    }
  }

  /** A consumer: `current` replaces the device's entry, all-empty deletes it. */
  function Apply(replica: map<DeviceId, Addrs>, e: Event): map<DeviceId, Addrs> {
    if e.current == NO_ADDRS then replica - {e.device} else replica[e.device := e.current]
  }

  function Replay(replica: map<DeviceId, Addrs>, events: seq<Event>): map<DeviceId, Addrs> {
    if events == [] then replica
    else Apply(Replay(replica, events[..|events| - 1]), events[|events| - 1])
  }

  function Entry(replica: map<DeviceId, Addrs>, id: DeviceId): Addrs {
    if id in replica then replica[id] else NO_ADDRS
  }

  ghost predicate NoEmptyEntry(replica: map<DeviceId, Addrs>) {
    forall id <- replica :: replica[id] != NO_ADDRS
  }

  /** Replaying gives every device the last word about it. */
  lemma {:induction false} ReplayKeepsLastWord(replica: map<DeviceId, Addrs>, events: seq<Event>, id: DeviceId)
    ensures Entry(Replay(replica, events), id)
         == if LastWord(events, id).Some? then LastWord(events, id).value else Entry(replica, id)
    ensures NoEmptyEntry(replica) ==> NoEmptyEntry(Replay(replica, events))
  {
    if events != [] {
      ReplayKeepsLastWord(replica, events[..|events| - 1], id);
    }
  }

  /** Two replicas without empty entries are equal when they agree on every device. */
  lemma EntriesDetermineReplica(a: map<DeviceId, Addrs>, b: map<DeviceId, Addrs>)
    requires NoEmptyEntry(a) && NoEmptyEntry(b)
    requires forall id :: Entry(a, id) == Entry(b, id)
    ensures a == b
  {
    forall id ensures id in a <==> id in b {
      assert Entry(a, id) == Entry(b, id);
    }
    forall id | id in a ensures a[id] == b[id] {
      assert Entry(a, id) == Entry(b, id);
    }
  }

  // ------------------------------------------------------- writers are announced

  /** Between two store states, `events` announce every change of the feed, and
      their last word about a device is its new feed entry. */
  ghost predicate Announces(before: Db, after: Db, events: seq<Event>) {
    forall id :: FeedAt(after, id) == (if LastWord(events, id).Some? then LastWord(events, id).value else FeedAt(before, id))
  }

  lemma SingleEvent(e: Event, id: DeviceId)
    ensures LastWord([e], id) == if e.device == id then Some(e.current) else None
  {
    assert [e][..0] == [];
  }

  lemma FlipLastWord(seqNo: nat, d: DeviceId, row: Device, before: bool, after: bool, id: DeviceId)
    ensures LastWord(Flip(seqNo, d, row, before, after), id)
         == if d == id && before != after then Some(if after then row.Pair() else NO_ADDRS) else None
  {
    var es := Flip(seqNo, d, row, before, after);
    if es != [] { SingleEvent(es[0], id); }
  }

  /** The last word of a list of flips: only a listed device that flipped is named. */
  lemma {:induction false} FlipsLastWord(seqNo: nat, db: Db, listed: seq<DeviceId>, was: bool, stays: bool, becomes: bool, id: DeviceId)
    requires forall d <- listed :: d in db.devices
    requires forall i, j :: 0 <= i < j < |listed| ==> listed[i] != listed[j]
    ensures LastWord(Flips(seqNo, db, listed, was, stays, becomes), id)
         == if id in listed && InFeed(db.devices[id], was) != (stays && InFeed(db.devices[id], becomes))
            then Some(if stays && InFeed(db.devices[id], becomes) then db.devices[id].Pair() else NO_ADDRS) else None
    decreases |listed|
  {
    if listed != [] {
      var last, rest := listed[|listed| - 1], listed[..|listed| - 1];
      var d := db.devices[last];
      var sent := Flips(seqNo, db, rest, was, stays, becomes);
      var flip := Flip(seqNo + |sent|, last, d, InFeed(d, was), stays && InFeed(d, becomes));
      FlipsLastWord(seqNo, db, rest, was, stays, becomes, id);
      FlipLastWord(seqNo + |sent|, last, d, InFeed(d, was), stays && InFeed(d, becomes), id);
      LastWordOfConcat(sent, flip, id);
      assert id in listed <==> id == last || id in rest;
    }
  }

  lemma OneEventAnnounces(before: Db, after: Db, e: Event)
    requires forall id :: FeedAt(after, id) == if id == e.device then e.current else FeedAt(before, id)
    ensures Announces(before, after, [e])
  {
    forall id { SingleEvent(e, id); }
  }

  lemma CheckInIsAnnounced(db: Db, id: DeviceId, report: Addrs, now: int)
    requires Stored(db) && Authenticated(db, id)
    ensures Announces(db, PerformCheckIn(db, id, report, now).db, PerformCheckIn(db, id, report, now).events)
  {
    var e := PerformCheckIn(db, id, report, now);
    var effective := Merge(db.devices[id].Pair(), report);
    assert e.db.devices[id].Pair() == effective;
    assert forall d :: d != id ==> (d in e.db.devices <==> d in db.devices) && (d in db.devices ==> e.db.devices[d] == db.devices[d]);
    if e.events != [] { OneEventAnnounces(db, e.db, e.events[0]); }
  }

  lemma ExpiryIsAnnounced(db: Db, id: DeviceId, v4Due: bool, v6Due: bool, now: int)
    requires Stored(db) && Authenticated(db, id)
    ensures var e := PerformExpiry(db, id, db.devices[id], v4Due, v6Due, now); Announces(db, e.db, e.events)
  {
    var e := PerformExpiry(db, id, db.devices[id], v4Due, v6Due, now);
    if e.events != [] {
      assert e.db.devices[id].Pair() == e.events[0].current;
      OneEventAnnounces(db, e.db, e.events[0]);
    }
  }

  lemma DeviceFlipIsAnnounced(db: Db, id: DeviceId, disabled: bool)
    requires Stored(db) && id in db.devices
    ensures var e := PerformSetEnabled(db, id, disabled); Announces(db, e.db, e.events)
    ensures var e := PerformRemove(db, id); Announces(db, e.db, e.events)
  {
    var e := PerformSetEnabled(db, id, disabled);
    assert e.db.devices[id].Pair() == db.devices[id].Pair();
    if e.events != [] { OneEventAnnounces(db, e.db, e.events[0]); }
    var r := PerformRemove(db, id);
    if r.events != [] { OneEventAnnounces(db, r.db, r.events[0]); }
  }

  lemma UserFlipIsAnnounced(db: Db, u: UserId, disabled: bool, listed: seq<DeviceId>)
    requires Stored(db) && u in db.users && ListsDevicesOf(db, u, listed)
    ensures var e := PerformSetUserDisabled(db, u, disabled, listed); Announces(db, e.db, e.events)
  {
    var e := PerformSetUserDisabled(db, u, disabled, listed);
    forall id ensures FeedAt(e.db, id) == (if LastWord(e.events, id).Some? then LastWord(e.events, id).value else FeedAt(db, id)) {
      FlipsLastWord(db.feedSeq + 1, db, listed, db.users[u], true, disabled, id);
    }
  }

  lemma UserRemovalIsAnnounced(db: Db, u: UserId, listed: seq<DeviceId>)
    requires Stored(db) && u in db.users && ListsDevicesOf(db, u, listed)
    ensures var e := PerformRemoveUser(db, u, listed); Announces(db, e.db, e.events)
  {
    var e := PerformRemoveUser(db, u, listed);
    forall id ensures FeedAt(e.db, id) == (if LastWord(e.events, id).Some? then LastWord(e.events, id).value else FeedAt(db, id)) {
      FlipsLastWord(db.feedSeq + 1, db, listed, db.users[u], false, false, id);
    }
  }

  /** Main result for one writer: it is announced. */
  lemma WriterIsAnnounced(db: Db, w: Writer)
    requires Stored(db)
    ensures Announces(db, Perform(db, w).db, Perform(db, w).events)
  {
    match w
    case CheckIn(d, report, now) => if Authenticated(db, d) { CheckInIsAnnounced(db, d, report, now); }
    case Expire(d, v4Due, v6Due, now) => if Authenticated(db, d) { ExpiryIsAnnounced(db, d, v4Due, v6Due, now); }
    case SetEnabled(d, disabled) => if d in db.devices { DeviceFlipIsAnnounced(db, d, disabled); }
    case Remove(d) => if d in db.devices { DeviceFlipIsAnnounced(db, d, false); }
    case SetUserDisabled(u, disabled, listed) =>
      if u in db.users && ListsDevicesOf(db, u, listed) { UserFlipIsAnnounced(db, u, disabled, listed); }
    case RemoveUser(u, listed) =>
      if u in db.users && ListsDevicesOf(db, u, listed) { UserRemovalIsAnnounced(db, u, listed); }
    case _ =>
  }

  lemma CheckInKeepsStored(db: Db, id: DeviceId, report: Addrs, now: int)
    requires Stored(db) && id in db.devices
    ensures Stored(PerformCheckIn(db, id, report, now).db)
  {
  }

  lemma ExpiryKeepsStored(db: Db, id: DeviceId, candidate: Device, v4Due: bool, v6Due: bool, now: int)
    requires Stored(db)
    ensures Stored(PerformExpiry(db, id, candidate, v4Due, v6Due, now).db)
  {
  }

  lemma DeviceFlipKeepsStored(db: Db, id: DeviceId, disabled: bool)
    requires Stored(db) && id in db.devices
    ensures Stored(PerformSetEnabled(db, id, disabled).db) && Stored(PerformRemove(db, id).db)
  {
  }

  lemma WriterKeepsStored(db: Db, w: Writer)
    requires Stored(db)
    ensures Stored(Perform(db, w).db)
  {
  }
}
