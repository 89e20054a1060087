/**
 The writers in the form of the source: one object holding the tables, and the hub
 it broadcasts to. Every method is proved to perform the writer of the same name on
 the tables and to hand its events to the hub in order.
 */
module Server {
  import opened Devices
  import opened Fanout
  import opened HubSections
  import opened Hubs
  import opened Sweep

  class DeviceServer {
    var users: map<UserId, bool>
    var devices: map<DeviceId, Device>
    var history: map<nat, HistoryRow>
    var nextId: nat
    var feedSeq: nat
    const hub: Hub

    ghost function State(): Db
      reads this
    {
      Db(users, devices, history, nextId, feedSeq)
    }

    ghost predicate Valid()
      reads this, hub
    {
      Stored(State()) && Sound(hub.State())
    }

    /** The tables became e.db and the hub received e.events in order. */
    twostate predicate Performed(e: Effect)
      reads this, hub
    {
      State() == e.db && hub.State() == BroadcastAll(old(hub.State()), e.events)
    }

    constructor (hub: Hub)
      requires Sound(hub.State())
      ensures Valid() && this.hub == hub && State() == Db(map[], map[], map[], 0, 0)
    {
      this.hub := hub;
      users, devices, history, nextId, feedSeq := map[], map[], map[], 0, 0;
    }

    /** feed_state.Bump. */
    method Bump() returns (seqNo: nat)
      modifies this`feedSeq
      ensures seqNo == feedSeq == old(feedSeq) + 1
    {
      feedSeq := feedSeq + 1;
      seqNo := feedSeq;
    }

    method AppendHistory(id: DeviceId, pair: Addrs, now: int) returns (rowId: nat)
      modifies this`history, this`nextId
      ensures rowId == old(nextId) && State() == Devices.AppendHistory(old(State()), id, pair, now)
    {
      rowId := nextId;
      history, nextId := history[rowId := HistoryRow(id, pair, now)], nextId + 1;
    }

    /** CheckinService.Checkin; not `found` stands for ErrNotFound. */
    method Checkin(id: DeviceId, report: Addrs, now: int) returns (found: bool, stored: bool)
      requires Valid()
      modifies this, hub
      ensures found == (id in old(devices)) && Valid()
      ensures Performed(if found then PerformCheckIn(old(State()), id, report, now) else Effect(old(State()), []))
      ensures stored == (found && id in devices && devices[id].Pair() != old(devices)[id].Pair())
    {
      if id !in devices {
        assert BroadcastAll(hub.State(), []) == hub.State();
        return false, false;
      }
      CheckInKeepsStored(State(), id, report, now);
      found := true;
      stored := CheckinFound(id, report, now);
    }

    method CheckinFound(id: DeviceId, report: Addrs, now: int) returns (stored: bool)
      requires Sound(hub.State()) && id in devices
      modifies this, hub
      ensures Performed(PerformCheckIn(old(State()), id, report, now)) && Sound(hub.State())
      ensures stored == (id in devices && devices[id].Pair() != old(devices[id].Pair()))
    {
      var dev := devices[id];
      var effV4, effV6 := report.v4, report.v6;
      if effV4 == "" { effV4 := dev.v4.address; }
      if effV6 == "" { effV6 := dev.v6.address; }
      var v4Asserted, v6Asserted := report.v4 != "", report.v6 != "";
      if effV4 == dev.v4.address && effV6 == dev.v6.address {
        devices := devices[id := dev.(v4 := dev.v4.Contact(v4Asserted, now), v6 := dev.v6.Contact(v6Asserted, now))];
        assert BroadcastAll(hub.State(), []) == hub.State();
        return false;
      }
      devices := devices[id := dev.(v4 := dev.v4.Contact(v4Asserted, now).(address := effV4),
                                    v6 := dev.v6.Contact(v6Asserted, now).(address := effV6))];
      var row := AppendHistory(id, Addrs(effV4, effV6), now);
      var _ := Bump();
      Dispatch(RenderIPChanged(row, id, dev.Pair(), Addrs(effV4, effV6)));
      return true;
    }

    method Dispatch(e: Event)
      requires Sound(hub.State())
      modifies hub
      ensures hub.State() == BroadcastAll(old(hub.State()), [e]) && Sound(hub.State())
    {
      OneBroadcast(hub.State(), e);
      hub.Broadcast(e);
    }

    /** fanout.ExpireAddresses on a candidate row the caller read earlier. */
    method ExpireAddresses(id: DeviceId, candidate: Device, v4Due: bool, v6Due: bool, now: int) returns (changed: bool)
      requires Valid()
      modifies this, hub
      ensures Performed(PerformExpiry(old(State()), id, candidate, v4Due, v6Due, now)) && Valid()
      ensures changed == old(ExpiryApplies(State(), id, v4Due, v6Due, candidate.v4.confirmedAt, candidate.v6.confirmedAt))
      ensures feedSeq >= old(feedSeq) && nextId >= old(nextId)
    {
      ExpiryKeepsStored(State(), id, candidate, v4Due, v6Due, now);
      changed := id in devices
        && devices[id].v4.confirmedAt == candidate.v4.confirmedAt && devices[id].v6.confirmedAt == candidate.v6.confirmedAt
        && ((v4Due && devices[id].v4.address != "") || (v6Due && devices[id].v6.address != ""));
      if !changed { return; }
      var after := devices[id].(v4 := devices[id].v4.Expired(v4Due), v6 := devices[id].v6.Expired(v6Due));
      devices := devices[id := after];
      var row := AppendHistory(id, after.Pair(), now);
      var _ := Bump();
      var told := candidate.(v4 := candidate.v4.Expired(v4Due), v6 := candidate.v6.Expired(v6Due));
      Dispatch(RenderIPChanged(row, id, candidate.Pair(), told.Pair()));
    }

    /** emitMembership through fanout.membership. */
    method EmitMembership(id: DeviceId, d: Device, before: bool, after: bool)
      requires Sound(hub.State())
      modifies this`feedSeq, hub
      ensures var es := Flip(old(feedSeq) + 1, id, d, before, after);
        && feedSeq == old(feedSeq) + |es|
        && hub.State() == BroadcastAll(old(hub.State()), es) && Sound(hub.State())
    {
      if !before && after {
        var seqNo := Bump();
        Dispatch(RenderAdded(seqNo, id, d));
      } else if before && !after {
        var seqNo := Bump();
        Dispatch(RenderRemoved(seqNo, id, d));
      }
    }

    /** DeviceService.SetEnabled; a missing or foreign device is refused. */
    method SetEnabled(actor: UserId, id: DeviceId, disabled: bool) returns (ok: bool)
      requires Valid()
      modifies this, hub
      ensures ok == (id in old(devices) && old(devices)[id].owner == actor) && Valid()
      ensures Performed(if ok then PerformSetEnabled(old(State()), id, disabled) else Effect(old(State()), []))
    {
      ok := id in devices && devices[id].owner == actor;
      if ok {
        DeviceFlipKeepsStored(State(), id, disabled);
        FlipDisabled(id, disabled);
      } else {
        assert BroadcastAll(hub.State(), []) == hub.State();
      }
    }

    /** deviceMutator.flipDisabled on a device that exists. */
    method FlipDisabled(id: DeviceId, disabled: bool)
      requires Sound(hub.State()) && id in devices && devices[id].owner in users
      modifies this, hub
      ensures Performed(PerformSetEnabled(old(State()), id, disabled)) && Sound(hub.State())
    {
      var dev := devices[id];
      var owner := users[dev.owner];
      var after := dev.(disabled := disabled);
      devices := devices[id := after];
      EmitMembership(id, after, InFeed(dev, owner), InFeed(after, owner));
    }

    /** DeviceService.Delete; a missing or foreign device is refused. */
    method Delete(actor: UserId, id: DeviceId) returns (ok: bool)
      requires Valid()
      modifies this, hub
      ensures ok == (id in old(devices) && old(devices)[id].owner == actor) && Valid()
      ensures Performed(if ok then PerformRemove(old(State()), id) else Effect(old(State()), []))
    {
      ok := id in devices && devices[id].owner == actor;
      if ok {
        DeviceFlipKeepsStored(State(), id, false);
        DeleteFound(id);
      } else {
        assert BroadcastAll(hub.State(), []) == hub.State();
      }
    }

    method DeleteFound(id: DeviceId)
      requires Sound(hub.State()) && id in devices && devices[id].owner in users
      modifies this, hub
      ensures Performed(PerformRemove(old(State()), id)) && Sound(hub.State())
    {
      ghost var after := DeleteDevice(State(), id);
      var dev := devices[id];
      var owner := users[dev.owner];
      history := map h | h in history && history[h].device != id :: history[h];
      devices := devices - {id};
      assert State() == after;
      EmitMembership(id, dev, InFeed(dev, owner), false);
    }

    method ListByUser(u: UserId) returns (listed: seq<DeviceId>)
      ensures ListsDevicesOf(State(), u, listed)
    {
      listed := [];
      var rest := set d | d in devices && devices[d].owner == u;
      while rest != {}
        invariant forall d :: d in listed || d in rest <==> d in devices && devices[d].owner == u
        invariant forall d <- listed :: d !in rest
        invariant forall i, j :: 0 <= i < j < |listed| ==> listed[i] != listed[j]
        decreases rest
      {
        var d :| d in rest;
        listed, rest := listed + [d], rest - {d};
      }
    }

    /** The loop both account-wide seams end with: one flip per listed device. */
    method EmitFlips(ghost db: Db, rows: map<DeviceId, Device>, listed: seq<DeviceId>, was: bool, stays: bool, becomes: bool)
      requires Sound(hub.State()) && rows == db.devices && forall d <- listed :: d in rows
      modifies this`feedSeq, hub
      ensures Sound(hub.State())
      ensures SentSoFar(old(hub.State()), old(feedSeq) + 1, db, listed, was, stays, becomes, hub.State(), feedSeq)
    {
      ghost var start, n := hub.State(), feedSeq + 1;
      for i := 0 to |listed|
        invariant Sound(hub.State())
        invariant SentSoFar(start, n, db, listed[..i], was, stays, becomes, hub.State(), feedSeq)
      {
        var d := rows[listed[i]];
        var before, after := InFeed(d, was), stays && InFeed(d, becomes);
        ghost var es := Flip(feedSeq + 1, listed[i], d, before, after);
        ghost var h, seqNo := hub.State(), feedSeq;
        EmitMembership(listed[i], d, before, after);
        OneMoreFlip(start, n, db, listed, i, was, stays, becomes, h, seqNo, es);
      }
      assert listed[..|listed|] == listed;
    }

    /** AdminService.applyDisabled: the devices are listed before the write. */
    method ApplyDisabled(u: UserId, disabled: bool) returns (listed: seq<DeviceId>)
      requires Valid() && u in users
      modifies this, hub
      ensures ListsDevicesOf(old(State()), u, listed)
      ensures Performed(PerformSetUserDisabled(old(State()), u, disabled, listed)) && Valid()
    {
      ghost var db := State();
      listed := ListByUser(u);
      ghost var e := PerformSetUserDisabled(db, u, disabled, listed);
      var was := users[u];
      users := users[u := disabled];
      EmitFlips(db, devices, listed, was, true, disabled);
      assert State() == e.db;
    }

    /** AdminService.DeleteUser: the cascade destroys the devices it lists first. */
    method DeleteUser(u: UserId) returns (listed: seq<DeviceId>)
      requires Valid() && u in users
      modifies this, hub
      ensures ListsDevicesOf(old(State()), u, listed)
      ensures Performed(PerformRemoveUser(old(State()), u, listed)) && Valid()
    {
      ghost var db := State();
      listed := ListByUser(u);
      ghost var e := PerformRemoveUser(db, u, listed);
      var was, rows := users[u], devices;
      users := users - {u};
      history := map h | h in history && !(history[h].device in rows && rows[history[h].device].owner == u) :: history[h];
      devices := map d | d in rows && rows[d].owner != u :: rows[d];
      assert State() == Devices.DeleteUser(db, u);
      RemovedWithRows(db, u, listed, e.db);
      EmitFlips(db, rows, listed, was, false, false);
    }

    // ------------------------------------------------------------ the sweeper

    method AdvanceWarnLevel(id: DeviceId, f: FamilyName, level: nat, fromLevel: nat, pinV4: int, pinV6: int) returns (ok: bool)
      modifies this`devices
      ensures ok == AdvanceApplies(old(State()), id, f, fromLevel, pinV4, pinV6)
      ensures State() == Devices.AdvanceWarnLevel(old(State()), id, f, level, fromLevel, pinV4, pinV6)
    {
      ok := id in devices && FamilyOf(devices[id], f).warnLevel == fromLevel
        && devices[id].v4.confirmedAt == pinV4 && devices[id].v6.confirmedAt == pinV6;
      if ok {
        var d := devices[id];
        devices := devices[id := WithFamily(d, f, FamilyOf(d, f).(warnLevel := level))];
      }
    }

    method Warn(id: DeviceId, candidate: Device, window: nat, now: int)
      requires window >= SECONDS_PER_DAY
      modifies this`devices
      ensures State() == WarnFamily(WarnFamily(old(State()), id, candidate, V4, window, now), id, candidate, V6, window, now)
    {
      ghost var db := State();
      for i := 0 to 2
        invariant State() == if i == 0 then db
                             else if i == 1 then WarnFamily(db, id, candidate, V4, window, now)
                             else WarnFamily(WarnFamily(db, id, candidate, V4, window, now), id, candidate, V6, window, now)
      {
        var f := if i == 0 then V4 else V6;
        var fam := FamilyOf(candidate, f);
        if fam.address != "" {
          var due := ComputeDueRung(window, now - fam.confirmedAt);
          if due > fam.warnLevel {
            var _ := AdvanceWarnLevel(id, f, due, fam.warnLevel, candidate.v4.confirmedAt, candidate.v6.confirmedAt);
          }
        }
      }
    }

    method Act(id: DeviceId, candidate: Device, window: nat, now: int)
      requires Valid() && window >= SECONDS_PER_DAY
      modifies this, hub
      ensures Performed(Sweep.Act(old(State()), id, candidate, window, now)) && Valid()
    {
      var v4Due := candidate.v4.address != "" && now >= candidate.v4.confirmedAt + window;
      var v6Due := candidate.v6.address != "" && now >= candidate.v6.confirmedAt + window;
      if v4Due || v6Due {
        var _ := ExpireAddresses(id, candidate, v4Due, v6Due, now);
      } else {
        Warn(id, candidate, window, now);
        assert BroadcastAll(hub.State(), []) == hub.State();
      }
    }

    /** Phase 1: one read, materialised before anything is written. */
    method Candidates(window: nat, now: int) returns (ids: seq<DeviceId>)
      requires Valid()
      ensures ListsCandidates(State(), ids, window, now)
    {
      ids := [];
      var rest := devices.Keys;
      while rest != {}
        invariant forall d :: d in ids ==> d !in rest
        invariant rest <= devices.Keys
        invariant forall d <- devices :: d !in rest ==> (d in ids <==> Candidate(State(), d, window, now))
        invariant forall d <- ids :: d in devices
        invariant forall i, j :: 0 <= i < j < |ids| ==> ids[i] != ids[j]
        decreases rest
      {
        var d :| d in rest;
        var row := devices[d];
        var bound := now - Rungs(window)[0];
        if !row.disabled && !users[row.owner]
          && ((row.v4.address != "" && row.v4.confirmedAt <= bound) || (row.v6.address != "" && row.v6.confirmedAt <= bound))
        {
          ids := ids + [d];
        }
        rest := rest - {d};
      }
    }

    /** One sweep tick, run to completion. */
    method Run(window: nat, now: int) returns (ids: seq<DeviceId>)
      requires Valid() && window >= SECONDS_PER_DAY
      modifies this, hub
      ensures ListsCandidates(old(State()), ids, window, now)
      ensures Performed(Tick(old(State()), ids, window, now)) && Valid()
    {
      ids := Candidates(window, now);
      var rows := devices;
      ghost var db, start := State(), hub.State();
      assert ids[..0] == [];
      for i := 0 to |ids|
        invariant Valid()
        invariant State() == Tick(db, ids[..i], window, now).db
        invariant hub.State() == BroadcastAll(start, Tick(db, ids[..i], window, now).events)
      {
        ghost var done := Tick(db, ids[..i], window, now);
        ghost var e := Sweep.Act(done.db, ids[i], rows[ids[i]], window, now);
        assert ids[..i + 1][..i] == ids[..i];
        BroadcastsCompose(start, done.events, e.events);
        Act(ids[i], rows[ids[i]], window, now);
      }
      assert ids[..|ids|] == ids;
    }
  }

  /** The hub and the sequence number after the flips of some devices. */
  ghost predicate SentSoFar(start: HubState, n: nat, db: Db, listed: seq<DeviceId>, was: bool, stays: bool, becomes: bool,
                            h: HubState, seqNo: nat)
    requires forall d <- listed :: d in db.devices
  {
    var sent := Flips(n, db, listed, was, stays, becomes);
    h == BroadcastAll(start, sent) && seqNo + 1 == n + |sent|
  }

  lemma OneMoreFlip(start: HubState, n: nat, db: Db, listed: seq<DeviceId>, i: nat, was: bool, stays: bool, becomes: bool,
                    h: HubState, seqNo: nat, es: seq<Event>)
    requires i < |listed| && forall d <- listed :: d in db.devices
    requires SentSoFar(start, n, db, listed[..i], was, stays, becomes, h, seqNo)
    requires var d := db.devices[listed[i]];
      es == Flip(seqNo + 1, listed[i], d, InFeed(d, was), stays && InFeed(d, becomes))
    ensures SentSoFar(start, n, db, listed[..i + 1], was, stays, becomes, BroadcastAll(h, es), seqNo + |es|)
  {
    var sent := Flips(n, db, listed[..i], was, stays, becomes);
    assert listed[..i + 1][..i] == listed[..i];
    assert Flips(n, db, listed[..i + 1], was, stays, becomes) == sent + es;
    BroadcastsCompose(start, sent, es);
  }

  /** The tables an account's removal leaves, and that they are stored soundly. */
  lemma RemovedWithRows(db: Db, u: UserId, listed: seq<DeviceId>, after: Db)
    requires Stored(db) && u in db.users && ListsDevicesOf(db, u, listed) && after == PerformRemoveUser(db, u, listed).db
    ensures after == DeleteUser(db, u).(feedSeq := after.feedSeq) && Stored(after)
  {
    WriterKeepsStored(db, RemoveUser(u, listed));
  }

  lemma OneBroadcast(h: HubState, e: Event)
    ensures BroadcastAll(h, [e]) == Broadcast(h, e)
  {
    assert [e][..0] == [];
    assert BroadcastAll(h, []) == h;
  }

  lemma {:induction false} BroadcastsCompose(h: HubState, a: seq<Event>, b: seq<Event>)
    ensures BroadcastAll(h, a + b) == BroadcastAll(BroadcastAll(h, a), b)
  {
    if b == [] {
      assert a + b == a;
    } else {
      assert (a + b)[..|a + b| - 1] == a + b[..|b| - 1];
      BroadcastsCompose(h, a, b[..|b| - 1]);
    }
  }
}
