/**
 What each writer does, field by field: the rows, the history and the events of a
 check-in, an expiry, and the changes of membership, told by their inputs alone.
 */
module Outcomes {
  import opened Devices
  import opened Fanout
  import Writers

  // ------------------------------------------------------------------ the feed

  /** ListFeed is the query: enabled devices of enabled accounts that hold an address. */
  lemma FeedListsMembers(db: Db, id: DeviceId)
    ensures id in FeedMap(db) <==>
              && id in db.devices && !db.devices[id].disabled
              && db.devices[id].owner in db.users && !db.users[db.devices[id].owner]
              && (db.devices[id].v4.address != "" || db.devices[id].v6.address != "")
    ensures id in FeedMap(db) ==> FeedMap(db)[id] == Addrs(db.devices[id].v4.address, db.devices[id].v6.address)
    ensures id in FeedMap(db) <==> Member(db, id)
    ensures FeedAt(db, id) == if id in FeedMap(db) then FeedMap(db)[id] else NO_ADDRS
  {
  }

  // ------------------------------------------------------------------ check-ins

  /** An asserted family has the reported address from now on and starts the ladder
      again; an omitted one stays as it was. */
  ghost predicate Contacted(was: Family, becomes: Family, reported: Address, now: int) {
    && (reported != "" ==> becomes.address == reported && becomes.confirmedAt == now && becomes.warnLevel == 0)
    && (reported == "" ==> becomes == was)
  }

  /** Only this device's row may differ, and not in its owner or its flag. */
  ghost predicate OnlyRow(before: Db, after: Db, id: DeviceId) {
    && after.users == before.users && after.devices.Keys == before.devices.Keys
    && (forall d <- before.devices :: d != id ==> after.devices[d] == before.devices[d])
    && (id in before.devices ==>
          after.devices[id].owner == before.devices[id].owner && after.devices[id].disabled == before.devices[id].disabled)
  }

  /** One history row under the next id, and one event that carries it. */
  ghost predicate RecordedOnce(before: Db, e: Effect, id: DeviceId, stored: Addrs, previous: Addrs, current: Addrs, now: int) {
    && e.db.history == before.history[before.nextId := HistoryRow(id, stored, now)] && e.db.nextId == before.nextId + 1
    && e.db.feedSeq == before.feedSeq + 1
    && |e.events| == 1 && e.events[0].kind.IpChanged? && e.events[0].id == before.nextId && e.events[0].device == id
    && e.events[0].current == current && e.events[0].previous == previous
  }

  ghost predicate NothingRecorded(before: Db, e: Effect) {
    e.events == [] && e.db.history == before.history && e.db.nextId == before.nextId && e.db.feedSeq == before.feedSeq
  }

  /** A check-in: what the client reports is what the row says afterwards, and a change
      of either address is recorded once and announced once. */
  lemma CheckInOutcome(db: Db, id: DeviceId, report: Addrs, now: int)
    requires id in db.devices
    ensures var e := PerformCheckIn(db, id, report, now);
      && OnlyRow(db, e.db, id)
      && Contacted(db.devices[id].v4, e.db.devices[id].v4, report.v4, now)
      && Contacted(db.devices[id].v6, e.db.devices[id].v6, report.v6, now)
      && var was, becomes := Addrs(db.devices[id].v4.address, db.devices[id].v6.address),
                             Addrs(e.db.devices[id].v4.address, e.db.devices[id].v6.address);
         if was == becomes then NothingRecorded(db, e) else RecordedOnce(db, e, id, becomes, was, becomes, now)
  {
  }

  // ------------------------------------------------------------------- expiries

  ghost predicate Cleared(was: Family, becomes: Family, due: bool) {
    && becomes.confirmedAt == was.confirmedAt
    && (due ==> becomes.address == "" && becomes.warnLevel == 0)
    && (!due ==> becomes == was)
  }

  /** An expiry on a candidate read earlier: it happens exactly while the row still has
      the instants that were read and a due family holds an address; then the due
      families are empty and the others stay. The history row carries what the row
      still has, the event what the candidate had and would have left. */
  lemma ExpiryOutcome(db: Db, id: DeviceId, candidate: Device, v4Due: bool, v6Due: bool, now: int)
    ensures var e := PerformExpiry(db, id, candidate, v4Due, v6Due, now);
      var happens := id in db.devices
        && db.devices[id].v4.confirmedAt == candidate.v4.confirmedAt && db.devices[id].v6.confirmedAt == candidate.v6.confirmedAt
        && ((v4Due && db.devices[id].v4.address != "") || (v6Due && db.devices[id].v6.address != ""));
      && (!happens ==> e.db == db && e.events == [])
      && (happens ==>
            && OnlyRow(db, e.db, id)
            && Cleared(db.devices[id].v4, e.db.devices[id].v4, v4Due) && Cleared(db.devices[id].v6, e.db.devices[id].v6, v6Due)
            && RecordedOnce(db, e, id, Addrs(e.db.devices[id].v4.address, e.db.devices[id].v6.address),
                            Addrs(candidate.v4.address, candidate.v6.address),
                            Addrs(if v4Due then "" else candidate.v4.address, if v6Due then "" else candidate.v6.address), now))
  {
  }

  /** The ladder write: exactly on the pinned instants and the pinned level, and only
      that family's level. */
  lemma AdvanceOutcome(db: Db, id: DeviceId, f: FamilyName, level: nat, fromLevel: nat, pinV4: int, pinV6: int)
    ensures var after := AdvanceWarnLevel(db, id, f, level, fromLevel, pinV4, pinV6);
      var happens := id in db.devices && db.devices[id].v4.confirmedAt == pinV4 && db.devices[id].v6.confirmedAt == pinV6
        && fromLevel == if f.V4? then db.devices[id].v4.warnLevel else db.devices[id].v6.warnLevel;
      && (AdvanceApplies(db, id, f, fromLevel, pinV4, pinV6) <==> happens)
      && (!happens ==> after == db)
      && (happens ==>
            && OnlyRow(db, after, id) && after.history == db.history && after.nextId == db.nextId && after.feedSeq == db.feedSeq
            && after.devices[id].v4 == (if f.V4? then db.devices[id].v4.(warnLevel := level) else db.devices[id].v4)
            && after.devices[id].v6 == (if f.V6? then db.devices[id].v6.(warnLevel := level) else db.devices[id].v6))
  {
  }

  // ----------------------------------------------------------------- membership

  /** Enabling and disabling write the flag and nothing else of the tables. */
  lemma SetEnabledOutcome(db: Db, id: DeviceId, disabled: bool)
    requires Stored(db) && id in db.devices
    ensures var after := PerformSetEnabled(db, id, disabled).db;
      && after.users == db.users && after.history == db.history && after.nextId == db.nextId
      && after.devices.Keys == db.devices.Keys && (forall d <- db.devices :: d != id ==> after.devices[d] == db.devices[d])
      && after.devices[id].disabled == disabled && after.devices[id].owner == db.devices[id].owner
      && after.devices[id].v4 == db.devices[id].v4 && after.devices[id].v6 == db.devices[id].v6
  {
  }

  /** Deleting a device takes its row and exactly its history. */
  lemma RemoveOutcome(db: Db, id: DeviceId)
    requires Stored(db) && id in db.devices
    ensures var after := PerformRemove(db, id).db;
      && after.users == db.users && after.nextId == db.nextId
      && (forall d :: d in after.devices <==> d in db.devices && d != id)
      && (forall d <- after.devices :: after.devices[d] == db.devices[d])
      && (forall h :: h in after.history <==> h in db.history && db.history[h].device != id)
      && (forall h <- after.history :: after.history[h] == db.history[h])
  {
  }

  lemma SetUserDisabledOutcome(db: Db, u: UserId, disabled: bool, listed: seq<DeviceId>)
    requires u in db.users && forall d <- listed :: d in db.devices
    ensures var after := PerformSetUserDisabled(db, u, disabled, listed).db;
      && after.devices == db.devices && after.history == db.history && after.nextId == db.nextId
      && after.users.Keys == db.users.Keys && after.users[u] == disabled
      && (forall v <- db.users :: v != u ==> after.users[v] == db.users[v])
  {
  }

  /** Deleting an account takes exactly its devices and their history. */
  lemma RemoveUserOutcome(db: Db, u: UserId, listed: seq<DeviceId>)
    requires Stored(db) && u in db.users && forall d <- listed :: d in db.devices
    ensures var after := PerformRemoveUser(db, u, listed).db;
      && after.nextId == db.nextId
      && (forall v :: v in after.users <==> v in db.users && v != u)
      && (forall v <- after.users :: after.users[v] == db.users[v])
      && (forall d :: d in after.devices <==> d in db.devices && db.devices[d].owner != u)
      && (forall d <- after.devices :: after.devices[d] == db.devices[d])
      && (forall h :: h in after.history <==> h in db.history && db.history[h].device in after.devices)
      && (forall h <- after.history :: after.history[h] == db.history[h])
  {
  }

  // --------------------------------------------------------------------- events

  /** The event of a device that joins or leaves the feed: which of the two it is, and
      both sides of the change. */
  ghost predicate TellsFlip(before: Db, after: Db, e: Event) {
    && (e.kind.Added? <==> !Member(before, e.device) && Member(after, e.device))
    && (e.kind.Removed? <==> Member(before, e.device) && !Member(after, e.device))
    && !e.kind.IpChanged?
    && e.previous == FeedAt(before, e.device) && e.current == FeedAt(after, e.device)
  }

  /** The event of a device whose addresses change. */
  ghost predicate TellsChange(before: Db, after: Db, e: Event) {
    e.kind.IpChanged? && e.previous == FeedAt(before, e.device) && e.current == FeedAt(after, e.device)
  }

  lemma {:induction false} FlipsTell(seqNo: nat, db: Db, listed: seq<DeviceId>, was: bool, stays: bool, becomes: bool, i: nat)
    requires (forall d <- listed :: d in db.devices) && i < |Flips(seqNo, db, listed, was, stays, becomes)|
    ensures var e := Flips(seqNo, db, listed, was, stays, becomes)[i];
      && e.device in listed
      && var before, after := InFeed(db.devices[e.device], was), stays && InFeed(db.devices[e.device], becomes);
         && before != after && e.kind == (if after then Added else Removed)
         && e.previous == (if before then db.devices[e.device].Pair() else NO_ADDRS)
         && e.current == (if after then db.devices[e.device].Pair() else NO_ADDRS)
    decreases |listed|
  {
    if listed != [] {
      var rest := listed[..|listed| - 1];
      if i < |Flips(seqNo, db, rest, was, stays, becomes)| { FlipsTell(seqNo, db, rest, was, stays, becomes, i); }
    }
  }

  lemma DeviceFlipTells(db: Db, id: DeviceId, disabled: bool)
    requires Stored(db) && id in db.devices
    ensures forall e <- PerformSetEnabled(db, id, disabled).events :: TellsFlip(db, PerformSetEnabled(db, id, disabled).db, e)
    ensures forall e <- PerformRemove(db, id).events :: TellsFlip(db, PerformRemove(db, id).db, e)
  {
  }

  lemma UserFlipTells(db: Db, w: Writer, i: nat)
    requires Stored(db) && (w.SetUserDisabled? || w.RemoveUser?) && i < |Perform(db, w).events|
    ensures TellsFlip(db, Perform(db, w).db, Perform(db, w).events[i])
  {
    if w.SetUserDisabled? {
      FlipsTell(db.feedSeq + 1, db, w.listed, db.users[w.user], true, w.isDisabled, i);
    } else {
      FlipsTell(db.feedSeq + 1, db, w.listed, db.users[w.user], false, false, i);
    }
  }

  /** Every event of every writer tells its device's change, from the feed before to the
      feed after, under the kind that names it. */
  lemma EventsTellTheirChange(db: Db, w: Writer, i: nat)
    requires Stored(db) && i < |Perform(db, w).events|
    ensures var after, e := Perform(db, w).db, Perform(db, w).events[i];
      if w.CheckIn? || w.Expire? then TellsChange(db, after, e) else TellsFlip(db, after, e)
  {
    match w
    case CheckIn(d, report, now) =>
      CheckInOutcome(db, d, report, now);
    case Expire(d, v4Due, v6Due, now) =>
      ExpiryOutcome(db, d, db.devices[d], v4Due, v6Due, now);
    case SetEnabled(d, disabled) => DeviceFlipTells(db, d, disabled);
    case Remove(d) => DeviceFlipTells(db, d, false);
    case _ => UserFlipTells(db, w, i);
  }

  /** Membership events take the next sequence numbers, one each and in order. */
  lemma FlipsAreNumbered(db: Db, w: Writer, i: nat)
    requires Stored(db) && !w.CheckIn? && !w.Expire? && i < |Perform(db, w).events|
    ensures Perform(db, w).events[i].id == db.feedSeq + 1 + i
    ensures Perform(db, w).db.feedSeq == db.feedSeq + |Perform(db, w).events|
  {
    match w
    case SetUserDisabled(u, disabled, listed) => Writers.FlipIds(db.feedSeq + 1, db, listed, db.users[u], true, disabled);
    case RemoveUser(u, listed) => Writers.FlipIds(db.feedSeq + 1, db, listed, db.users[u], false, false);
    case _ =>
  }

  /** A device that enrols is enabled, holds no address and was never confirmed; a new
      account is enabled. Neither is announced. */
  lemma CreationOutcome(db: Db, d: DeviceId, u: UserId)
    ensures d !in db.devices && u in db.users ==>
              var e := Perform(db, Enroll(d, u));
              && e.db == db.(devices := db.devices[d := Device(u, false, Family("", 0, 0), Family("", 0, 0))])
              && e.events == [] && !Member(e.db, d)
    ensures u !in db.users ==> Perform(db, CreateUser(u)) == Effect(db.(users := db.users[u := false]), [])
  {
  }
}
