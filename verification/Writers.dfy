/**
 What holds over every run of serialised writers: the device row agrees with its
 newest history row, and no two events carry the same deduplication key. The last
 lemmas say exactly when an expiry decided on an older read is still announced.
 */
module Writers {
  import opened Options
  import opened Devices
  import opened Fanout

  /** The store after a run of writers. */
  ghost function After(db: Db, ws: seq<Writer>): Db {
    if ws == [] then db else Perform(After(db, ws[..|ws| - 1]), ws[|ws| - 1]).db
  }

  /** Everything a run of writers broadcast, in order. */
  ghost function Emitted(db: Db, ws: seq<Writer>): seq<Event> {
    if ws == [] then []
    else Emitted(db, ws[..|ws| - 1]) + Perform(After(db, ws[..|ws| - 1]), ws[|ws| - 1]).events
  }

  // --------------------------------------------------- device row and history

  /** h is the newest row of d in a table that holds every row of another. */
  lemma NewestInSmaller(before: Db, after: Db, d: DeviceId, h: nat)
    requires IsNewest(after, d, h) && h in before.history && before.history[h] == after.history[h]
    requires forall k <- before.history :: k in after.history && after.history[k] == before.history[k]
    ensures IsNewest(before, d, h)
  {
  }

  lemma AppendKeepsRow(before: Db, after: Db, id: DeviceId, pair: Addrs, now: int, d: DeviceId)
    requires Stored(before) && RowMatchesHistory(before) && d in before.devices && d in after.devices
    requires after.history == before.history[before.nextId := HistoryRow(id, pair, now)]
    requires after.devices[d].Pair() == if d == id then pair else before.devices[d].Pair()
    ensures forall k :: IsNewest(after, d, k) ==> after.history[k].pair == after.devices[d].Pair()
    ensures (forall k <- after.history :: after.history[k].device != d) ==> after.devices[d].Pair() == NO_ADDRS
  {
    var h := before.nextId;
    assert h in after.history && after.history[h].device == id;
    assert forall k <- before.history :: k in after.history && after.history[k] == before.history[k];
    forall k | IsNewest(after, d, k) ensures after.history[k].pair == after.devices[d].Pair() {
      if d == id { assert k == h; } else { NewestInSmaller(before, after, d, k); }
    }
  }

  lemma AppendKeepsMatch(before: Db, after: Db, id: DeviceId, pair: Addrs, now: int)
    requires Stored(before) && RowMatchesHistory(before) && id in before.devices
    requires after.history == before.history[before.nextId := HistoryRow(id, pair, now)]
    requires after.devices.Keys == before.devices.Keys && after.devices[id].Pair() == pair
    requires forall d <- after.devices :: d != id ==> after.devices[d].Pair() == before.devices[d].Pair()
    ensures RowMatchesHistory(after)
  {
    forall d <- after.devices
      ensures forall k :: IsNewest(after, d, k) ==> after.history[k].pair == after.devices[d].Pair()
      ensures (forall k <- after.history :: after.history[k].device != d) ==> after.devices[d].Pair() == NO_ADDRS
    {
      AppendKeepsRow(before, after, id, pair, now, d);
    }
  }

  lemma SamePairsKeepMatch(before: Db, after: Db)
    requires RowMatchesHistory(before) && after.history == before.history
    requires forall d <- after.devices ::
               if d in before.devices then after.devices[d].Pair() == before.devices[d].Pair()
               else after.devices[d].Pair() == NO_ADDRS && forall h <- before.history :: before.history[h].device != d
    ensures RowMatchesHistory(after)
  {
    assert forall d, h :: IsNewest(after, d, h) <==> IsNewest(before, d, h);
  }

  /** Deleting rows that are not the newest of a surviving device. */
  lemma ThinningKeepsMatch(before: Db, after: Db)
    requires RowMatchesHistory(before) && Stored(before)
    requires after.devices.Keys <= before.devices.Keys && forall d <- after.devices :: after.devices[d] == before.devices[d]
    requires after.history.Keys <= before.history.Keys && forall h <- after.history :: after.history[h] == before.history[h]
    requires forall d, h :: d in after.devices && IsNewest(before, d, h) ==> h in after.history
    ensures RowMatchesHistory(after)
  {
    forall d <- after.devices
      ensures forall k :: IsNewest(after, d, k) ==> after.history[k].pair == after.devices[d].Pair()
      ensures (forall k <- after.history :: after.history[k].device != d) ==> after.devices[d].Pair() == NO_ADDRS
    {
      if h :| h in before.history && before.history[h].device == d {
        var n := NewestOf(before, d, h);
        assert n in after.history;
        assert forall k :: IsNewest(after, d, k) ==> k == n;
      }
    }
  }

  /** A device with a history row has a newest one. */
  lemma {:induction false} NewestOf(db: Db, d: DeviceId, h: nat) returns (n: nat)
    requires h in db.history && db.history[h].device == d && Stored(db)
    ensures IsNewest(db, d, n)
    decreases db.nextId - h
  {
    if k :| k in db.history && db.history[k].device == d && k > h {
      n := NewestOf(db, d, k);
    } else {
      n := h;
    }
  }

  lemma CheckInKeepsMatch(db: Db, id: DeviceId, report: Addrs, now: int)
    requires Stored(db) && RowMatchesHistory(db) && id in db.devices
    ensures RowMatchesHistory(PerformCheckIn(db, id, report, now).db)
  {
    var after := PerformCheckIn(db, id, report, now).db;
    var stored := db.devices[id].Pair();
    if Merge(stored, report) == stored { SamePairsKeepMatch(db, after); }
    else { AppendKeepsMatch(db, after, id, Merge(stored, report), now); }
  }

  lemma ExpiryKeepsMatch(db: Db, id: DeviceId, candidate: Device, v4Due: bool, v6Due: bool, now: int)
    requires Stored(db) && RowMatchesHistory(db)
    ensures RowMatchesHistory(PerformExpiry(db, id, candidate, v4Due, v6Due, now).db)
  {
    var after := PerformExpiry(db, id, candidate, v4Due, v6Due, now).db;
    if ExpiryApplies(db, id, v4Due, v6Due, candidate.v4.confirmedAt, candidate.v6.confirmedAt) {
      AppendKeepsMatch(db, after, id, after.devices[id].Pair(), now);
    }
  }

  lemma RemovalKeepsMatch(db: Db, w: Writer)
    requires Stored(db) && RowMatchesHistory(db) && (w.Remove? || w.RemoveUser? || w.Retain?)
    ensures RowMatchesHistory(Perform(db, w).db)
  {
    ThinningKeepsMatch(db, Perform(db, w).db);
  }

  lemma FlipKeepsMatch(db: Db, id: DeviceId, disabled: bool)
    requires RowMatchesHistory(db) && id in db.devices && db.devices[id].owner in db.users
    ensures RowMatchesHistory(PerformSetEnabled(db, id, disabled).db)
  {
    SamePairsKeepMatch(db, PerformSetEnabled(db, id, disabled).db);
  }

  lemma NewRowKeepsMatch(db: Db, id: DeviceId, row: Device)
    requires Stored(db) && RowMatchesHistory(db) && id !in db.devices && row.Pair() == NO_ADDRS
    ensures RowMatchesHistory(db.(devices := db.devices[id := row]))
  {
    SamePairsKeepMatch(db, db.(devices := db.devices[id := row]));
  }

  lemma EnrollKeepsMatch(db: Db, id: DeviceId, owner: UserId)
    requires Stored(db) && RowMatchesHistory(db)
    ensures RowMatchesHistory(Perform(db, Enroll(id, owner)).db)
  {
    if id !in db.devices { NewRowKeepsMatch(db, id, Device(owner, false, Family("", 0, 0), Family("", 0, 0))); }
  }

  lemma UserEditKeepsMatch(db: Db, after: Db)
    requires RowMatchesHistory(db) && after == db.(users := after.users, feedSeq := after.feedSeq)
    ensures RowMatchesHistory(after)
  {
    SamePairsKeepMatch(db, after);
  }

  lemma WriterKeepsMatch(db: Db, w: Writer)
    requires Stored(db) && RowMatchesHistory(db)
    ensures RowMatchesHistory(Perform(db, w).db)
  {
    match w
    case CheckIn(d, report, now) => if Authenticated(db, d) { CheckInKeepsMatch(db, d, report, now); }
    case Expire(d, v4Due, v6Due, now) =>
      if Authenticated(db, d) { ExpiryKeepsMatch(db, d, db.devices[d], v4Due, v6Due, now); }
    case SetEnabled(d, disabled) => if d in db.devices { FlipKeepsMatch(db, d, disabled); }
    case Enroll(d, owner) => EnrollKeepsMatch(db, d, owner);
    case SetUserDisabled(_, _, _) => UserEditKeepsMatch(db, Perform(db, w).db);
    case CreateUser(_) => UserEditKeepsMatch(db, Perform(db, w).db);
    case _ => RemovalKeepsMatch(db, w);
  }

  lemma {:induction false} AfterStaysStored(db: Db, ws: seq<Writer>)
    requires Stored(db)
    ensures Stored(After(db, ws))
  {
    if ws != [] {
      AfterStaysStored(db, ws[..|ws| - 1]);
      WriterKeepsStored(After(db, ws[..|ws| - 1]), ws[|ws| - 1]);
    }
  }

  /** Over every run, a device's newest history row is its current address pair. */
  lemma {:induction false} RowAndHistoryAgree(db: Db, ws: seq<Writer>)
    requires Stored(db) && RowMatchesHistory(db)
    ensures RowMatchesHistory(After(db, ws))
  {
    if ws != [] {
      RowAndHistoryAgree(db, ws[..|ws| - 1]);
      AfterStaysStored(db, ws[..|ws| - 1]);
      WriterKeepsMatch(After(db, ws[..|ws| - 1]), ws[|ws| - 1]);
    }
  }

  /** Only a check-in and an expiry append, one row, with another pair than the row had. */
  lemma AppendChangesPair(db: Db, w: Writer, h: nat)
    requires h in Perform(db, w).db.history && h !in db.history
    ensures h == db.nextId && forall k <- Perform(db, w).db.history :: k == h || k in db.history
    ensures var row := Perform(db, w).db.history[h]; row.device in db.devices && row.pair != db.devices[row.device].Pair()
  {
    match w
    case CheckIn(d, report, now) => assert Perform(db, w) == PerformCheckIn(db, d, report, now);
    case Expire(d, v4Due, v6Due, now) => assert Perform(db, w) == PerformExpiry(db, d, db.devices[d], v4Due, v6Due, now);
    case _ =>
  }

  /** Every row a run appends differs from the row before it of the same device, and
      a device's first row carries an address. */
  lemma AppendedRowDiffers(db: Db, ws: seq<Writer>, w: Writer, h: nat)
    requires Stored(db) && RowMatchesHistory(db)
    requires h in Perform(After(db, ws), w).db.history && h !in After(db, ws).history
    ensures var before := After(db, ws);
      var row := Perform(before, w).db.history[h];
      && IsNewest(Perform(before, w).db, row.device, h)
      && (forall k :: IsNewest(before, row.device, k) ==> before.history[k].pair != row.pair)
      && ((forall k <- before.history :: before.history[k].device != row.device) ==> row.pair != NO_ADDRS)
  {
    AfterStaysStored(db, ws);
    RowAndHistoryAgree(db, ws);
    AppendChangesPair(After(db, ws), w, h);
    NewIsNewest(After(db, ws), Perform(After(db, ws), w).db, h);
  }

  lemma NewIsNewest(before: Db, after: Db, h: nat)
    requires Stored(before) && h == before.nextId && h in after.history
    requires forall k <- after.history :: k == h || k in before.history
    ensures IsNewest(after, after.history[h].device, h)
  {
  }

  // ------------------------------------------------------------ deduplication

  /** Every id issued so far is below the counters that issue the next one. */
  ghost predicate Issued(db: Db, log: seq<Event>) {
    forall i :: 0 <= i < |log| ==> if log[i].kind.IpChanged? then log[i].id < db.nextId else log[i].id <= db.feedSeq
  }

  ghost predicate DistinctKeys(log: seq<Event>) {
    forall i, j :: 0 <= i < j < |log| ==> (log[i].kind, log[i].id) != (log[j].kind, log[j].id)
  }

  ghost predicate NumberedFrom(es: seq<Event>, seqNo: nat) {
    forall i :: 0 <= i < |es| ==> es[i].id == seqNo + i && !es[i].kind.IpChanged?
  }

  lemma NumberedConcat(a: seq<Event>, b: seq<Event>, seqNo: nat)
    requires NumberedFrom(a, seqNo) && NumberedFrom(b, seqNo + |a|)
    ensures NumberedFrom(a + b, seqNo)
  {
    forall i | 0 <= i < |a + b| ensures (a + b)[i].id == seqNo + i && !(a + b)[i].kind.IpChanged? {
      if i >= |a| { assert (a + b)[i] == b[i - |a|]; }
    }
  }

  lemma {:induction false} FlipIds(seqNo: nat, db: Db, listed: seq<DeviceId>, was: bool, stays: bool, becomes: bool)
    requires forall d <- listed :: d in db.devices
    ensures NumberedFrom(Flips(seqNo, db, listed, was, stays, becomes), seqNo)
    decreases |listed|
  {
    if listed != [] {
      var last, rest := listed[|listed| - 1], listed[..|listed| - 1];
      var d := db.devices[last];
      FlipIds(seqNo, db, rest, was, stays, becomes);
      var sent := Flips(seqNo, db, rest, was, stays, becomes);
      NumberedConcat(sent, Flip(seqNo + |sent|, last, d, InFeed(d, was), stays && InFeed(d, becomes)), seqNo);
    }
  }

  /** The ids of an effect's events were not issued before it, and are distinct. */
  ghost predicate FreshIds(db: Db, e: Effect) {
    && db.nextId <= e.db.nextId && db.feedSeq <= e.db.feedSeq
    && Issued(e.db, e.events) && DistinctKeys(e.events)
    && forall i :: 0 <= i < |e.events| ==>
         if e.events[i].kind.IpChanged? then db.nextId <= e.events[i].id else db.feedSeq < e.events[i].id
  }

  lemma FlipsAreFresh(db: Db, after: Db, listed: seq<DeviceId>, was: bool, stays: bool, becomes: bool)
    requires forall d <- listed :: d in db.devices
    requires var es := Flips(db.feedSeq + 1, db, listed, was, stays, becomes);
      after.nextId == db.nextId && after.feedSeq == db.feedSeq + |es|
    ensures FreshIds(db, Effect(after, Flips(db.feedSeq + 1, db, listed, was, stays, becomes)))
  {
    FlipIds(db.feedSeq + 1, db, listed, was, stays, becomes);
  }

  lemma WriterIssuesFreshIds(db: Db, w: Writer)
    ensures FreshIds(db, Perform(db, w))
  {
    match w
    case SetUserDisabled(u, disabled, listed) =>
      if u in db.users && ListsDevicesOf(db, u, listed) {
        FlipsAreFresh(db, Perform(db, w).db, listed, db.users[u], true, disabled);
      }
    case RemoveUser(u, listed) =>
      if u in db.users && ListsDevicesOf(db, u, listed) {
        FlipsAreFresh(db, Perform(db, w).db, listed, db.users[u], false, false);
      }
    case _ =>
  }

  /** No two broadcasts of a run share (kind, id), so a consumer that drops repeats
      of that key drops none of them. */
  lemma {:induction false} EventKeysAreDistinct(db: Db, ws: seq<Writer>)
    ensures DistinctKeys(Emitted(db, ws)) && Issued(After(db, ws), Emitted(db, ws))
  {
    if ws != [] {
      EventKeysAreDistinct(db, ws[..|ws| - 1]);
      WriterIssuesFreshIds(After(db, ws[..|ws| - 1]), ws[|ws| - 1]);
    }
  }

  // ------------------------------------------------ expiry on an older candidate

  /** What an expiry of the due families leaves of a row. */
  function Survivors(d: Device, v4Due: bool, v6Due: bool): Addrs {
    Addrs(d.v4.Expired(v4Due).address, d.v6.Expired(v6Due).address)
  }

  /** Exactly when an expiry is announced although its candidate was read earlier:
      the pinned write does not apply, or what the candidate says survives is what
      the row leaves in the feed, which is nothing for a device that may not be in it. */
  lemma ExpiryAnnouncedIff(db: Db, id: DeviceId, candidate: Device, v4Due: bool, v6Due: bool, now: int)
    requires Stored(db)
    ensures var e := PerformExpiry(db, id, candidate, v4Due, v6Due, now);
      Announces(db, e.db, e.events) <==>
        || !ExpiryApplies(db, id, v4Due, v6Due, candidate.v4.confirmedAt, candidate.v6.confirmedAt)
        || Survivors(candidate, v4Due, v6Due)
             == if Authenticated(db, id) then Survivors(db.devices[id], v4Due, v6Due) else NO_ADDRS
  {
    var e := PerformExpiry(db, id, candidate, v4Due, v6Due, now);
    if ExpiryApplies(db, id, v4Due, v6Due, candidate.v4.confirmedAt, candidate.v6.confirmedAt) {
      var carried := Survivors(candidate, v4Due, v6Due);
      SingleEvent(e.events[0], id);
      assert e.events[0].current == carried;
      assert e.db.devices[id].Pair() == Survivors(db.devices[id], v4Due, v6Due);
      assert FeedAt(e.db, id) == if Authenticated(db, id) then Survivors(db.devices[id], v4Due, v6Due) else NO_ADDRS;
      if carried == FeedAt(e.db, id) { OneEventAnnounces(db, e.db, e.events[0]); }
    }
  }

  /** The case that fails: the device is disabled between the sweep's read and its
      write, and one family is not due. The last event then names an address that
      ListFeed does not. */
  lemma DisableDuringSweepIsNotAnnounced()
    ensures var row := Device("u", false, Family("192.0.2.1", 0, 0), Family("2001:db8::1", 100, 0));
      var db := Db(map["u" := false], map["d" := row], map[], 0, 0);
      var disabled := PerformSetEnabled(db, "d", true).db;
      var e := PerformExpiry(disabled, "d", row, true, false, 150);
      && Stored(db) && "d" !in FeedMap(e.db)
      && LastWord(e.events, "d") == Some(Addrs("", "2001:db8::1"))
  {
    var row := Device("u", false, Family("192.0.2.1", 0, 0), Family("2001:db8::1", 100, 0));
    var db := Db(map["u" := false], map["d" := row], map[], 0, 0);
    var disabled := PerformSetEnabled(db, "d", true).db;
    var e := PerformExpiry(disabled, "d", row, true, false, 150);
    assert ExpiryApplies(disabled, "d", true, false, 0, 100);
    SingleEvent(e.events[0], "d");
    assert "192.0.2.1" != "";
    assert e.events == [e.events[0]];
  }
}
