/**
 The staleness policy: internal/server/stale/window.go and one sweep tick of
 internal/server/sweep.go, as functions on the tables, with what a tick achieves.
 */
module Sweep {
  import opened Devices
  import opened Fanout

  const SECONDS_PER_DAY := 86400

  /** The warning rungs as elapsed seconds. */
  function Rungs(window: nat): (r: seq<nat>)
    ensures |r| == 4
  {
    [window / 3, 2 * window / 3, 17 * window / 21, 20 * window / 21]
  }

  /** The highest rung reached after `elapsed`, 0 for none. */
  function DueRung(window: nat, elapsed: int): nat {
    if elapsed >= Rungs(window)[3] then 4
    else if elapsed >= Rungs(window)[2] then 3
    else if elapsed >= Rungs(window)[1] then 2
    else if elapsed >= Rungs(window)[0] then 1
    else 0
  }

  /** The rungs fall in order strictly inside the window, and the due rung is the
      number of rungs reached. */
  lemma RungsAreInsideWindow(window: nat, elapsed: int)
    requires window >= SECONDS_PER_DAY
    ensures 0 < Rungs(window)[0] < Rungs(window)[1] < Rungs(window)[2] < Rungs(window)[3] < window
    ensures forall i :: 0 <= i < 4 ==> (elapsed >= Rungs(window)[i] <==> DueRung(window, elapsed) > i)
  {
  }

  /** The rungs are the days 7, 14, 17 and 20 of a 21-day window, in proportion. */
  lemma RungsScale(window: nat, i: nat)
    requires i < 4
    ensures var days := [7, 14, 17, 20][i]; 21 * Rungs(window)[i] <= days * window < 21 * Rungs(window)[i] + 21
  {
  }

  method ComputeDueRung(window: nat, elapsed: int) returns (due: nat)
    requires window >= SECONDS_PER_DAY
    ensures due == DueRung(window, elapsed)
  {
    RungsAreInsideWindow(window, elapsed);
    due := 0;
    for i := 0 to 4
      invariant due <= i
      invariant forall k :: 0 <= k < i ==> (elapsed >= Rungs(window)[k] <==> due > k)
    {
      if elapsed >= Rungs(window)[i] {
        due := i + 1;
      }
    }
  }

  // --------------------------------------------------------------- one device

  predicate Due(f: Family, window: nat, now: int) {
    f.Held() && now >= f.confirmedAt + window
  }

  /** candidateQuery: an enabled device of an enabled account with a family that has
      reached its first rung. */
  predicate Candidate(db: Db, id: DeviceId, window: nat, now: int) {
    var bound := now - Rungs(window)[0];
    && Authenticated(db, id)
    && ((db.devices[id].v4.Held() && db.devices[id].v4.confirmedAt <= bound)
        || (db.devices[id].v6.Held() && db.devices[id].v6.confirmedAt <= bound))
  }

  /** An enabled device of an enabled account, with an address a third of a window old. */
  lemma CandidateIff(db: Db, id: DeviceId, window: nat, now: int)
    ensures Candidate(db, id, window, now) <==>
              && id in db.devices && !db.devices[id].disabled
              && db.devices[id].owner in db.users && !db.users[db.devices[id].owner]
              && ((db.devices[id].v4.address != "" && now - db.devices[id].v4.confirmedAt >= window / 3)
                  || (db.devices[id].v6.address != "" && now - db.devices[id].v6.confirmedAt >= window / 3))
  {
  }

  /** warn, for one family of the candidate row. */
  function WarnFamily(db: Db, id: DeviceId, candidate: Device, f: FamilyName, window: nat, now: int): Db {
    var fam := FamilyOf(candidate, f);
    var due := DueRung(window, now - fam.confirmedAt);
    if !fam.Held() || due <= fam.warnLevel then db
    else AdvanceWarnLevel(db, id, f, due, fam.warnLevel, candidate.v4.confirmedAt, candidate.v6.confirmedAt)
  }

  /** act: expiry is decided before rungs. */
  function Act(db: Db, id: DeviceId, candidate: Device, window: nat, now: int): Effect {
    var v4Due, v6Due := Due(candidate.v4, window, now), Due(candidate.v6, window, now);
    if v4Due || v6Due then PerformExpiry(db, id, candidate, v4Due, v6Due, now)
    else Effect(WarnFamily(WarnFamily(db, id, candidate, V4, window, now), id, candidate, V6, window, now), [])
  }

  /** A tick: act on each materialised candidate in turn. */
  function Tick(db: Db, ids: seq<DeviceId>, window: nat, now: int): Effect
    requires forall d <- ids :: d in db.devices
  {
    if ids == [] then Effect(db, [])
    else
      var last := ids[|ids| - 1];
      var done := Tick(db, ids[..|ids| - 1], window, now);
      var e := Act(done.db, last, db.devices[last], window, now);
      Effect(e.db, done.events + e.events)
  }

  ghost predicate ListsCandidates(db: Db, ids: seq<DeviceId>, window: nat, now: int) {
    && (forall d :: d in ids <==> d in db.devices && Candidate(db, d, window, now))
    && (forall i, j :: 0 <= i < j < |ids| ==> ids[i] != ids[j])
  }

  // ---------------------------------------------------------- what a tick does

  /** The row a tick leaves of a candidate. */
  function Swept(d: Device, window: nat, now: int): Device {
    var v4Due, v6Due := Due(d.v4, window, now), Due(d.v6, window, now);
    if v4Due || v6Due then d.(v4 := d.v4.Expired(v4Due), v6 := d.v6.Expired(v6Due))
    else d.(v4 := Warned(d.v4, window, now), v6 := Warned(d.v6, window, now))
  }

  function Warned(f: Family, window: nat, now: int): Family {
    var due := DueRung(window, now - f.confirmedAt);
    if f.Held() && due > f.warnLevel then f.(warnLevel := due) else f
  }

  /** One family's warning, while the row still is what the candidate was but for a
      warning of the other family. */
  lemma WarnSweepsFamily(db: Db, id: DeviceId, candidate: Device, f: FamilyName, window: nat, now: int)
    requires id in db.devices && FamilyOf(db.devices[id], f) == FamilyOf(candidate, f)
    requires db.devices[id].v4.confirmedAt == candidate.v4.confirmedAt && db.devices[id].v6.confirmedAt == candidate.v6.confirmedAt
    ensures WarnFamily(db, id, candidate, f, window, now)
         == db.(devices := db.devices[id := WithFamily(db.devices[id], f, Warned(FamilyOf(candidate, f), window, now))])
  {
    var due := DueRung(window, now - FamilyOf(candidate, f).confirmedAt);
    assert Warned(FamilyOf(candidate, f), window, now)
        == if FamilyOf(candidate, f).Held() && due > FamilyOf(candidate, f).warnLevel
           then FamilyOf(candidate, f).(warnLevel := due) else FamilyOf(candidate, f);
    assert WithFamily(db.devices[id], f, FamilyOf(candidate, f)) == db.devices[id];
    assert db.devices == db.devices[id := db.devices[id]];
  }

  lemma ActSweepsRow(db: Db, id: DeviceId, window: nat, now: int)
    requires id in db.devices
    ensures var e := Act(db, id, db.devices[id], window, now);
      e.db.devices == db.devices[id := Swept(db.devices[id], window, now)] && e.db.users == db.users
  {
    var d := db.devices[id];
    var v4Due, v6Due := Due(d.v4, window, now), Due(d.v6, window, now);
    if !v4Due && !v6Due {
      WarnSweepsFamily(db, id, d, V4, window, now);
      var one := WarnFamily(db, id, d, V4, window, now);
      WarnSweepsFamily(one, id, d, V6, window, now);
    } else {
      assert ExpiryApplies(db, id, v4Due, v6Due, d.v4.confirmedAt, d.v6.confirmedAt);
    }
  }

  /** A tick sweeps exactly its candidates, whatever the order. */
  lemma {:induction false} TickSweepsCandidates(db: Db, ids: seq<DeviceId>, window: nat, now: int)
    requires forall d <- ids :: d in db.devices
    requires forall i, j :: 0 <= i < j < |ids| ==> ids[i] != ids[j]
    ensures var e := Tick(db, ids, window, now);
      && e.db.users == db.users && e.db.devices.Keys == db.devices.Keys
      && forall d <- db.devices :: e.db.devices[d] == if d in ids then Swept(db.devices[d], window, now) else db.devices[d]
  {
    if ids != [] {
      var last, init := ids[|ids| - 1], ids[..|ids| - 1];
      TickSweepsCandidates(db, init, window, now);
      assert last !in init;
      assert forall d :: d in ids <==> d in init || d == last;
      ActSweepsRow(Tick(db, init, window, now).db, last, window, now);
    }
  }

  /** Expiry is exact. After an uninterrupted tick every address of a feed member was
      asserted less than a window ago; a family that was not due keeps its address;
      and no confirmation instant moves. */
  lemma SweepIsExact(db: Db, ids: seq<DeviceId>, window: nat, now: int, d: DeviceId, f: FamilyName)
    requires ListsCandidates(db, ids, window, now) && d in db.devices && window >= SECONDS_PER_DAY
    ensures var before, after := db.devices[d], Tick(db, ids, window, now).db;
      && d in after.devices
      && (Member(after, d) && FamilyOf(after.devices[d], f).Held() ==> now < FamilyOf(after.devices[d], f).confirmedAt + window)
      && (!Due(FamilyOf(before, f), window, now) ==> FamilyOf(after.devices[d], f).address == FamilyOf(before, f).address)
      && (FamilyOf(after.devices[d], f).Held() <==>
            FamilyOf(before, f).Held() && !(Authenticated(db, d) && Due(FamilyOf(before, f), window, now)))
      && FamilyOf(after.devices[d], f).confirmedAt == FamilyOf(before, f).confirmedAt
  {
    TickSweepsCandidates(db, ids, window, now);
    RungsAreInsideWindow(window, 0);
  }

  /** What is left of a family that was held and is not due: its level is the higher of
      what it was and the number of rungs reached. */
  ghost predicate Laddered(was: Family, becomes: Family, window: nat, now: int) {
    && becomes.address == was.address && becomes.confirmedAt == was.confirmedAt && becomes.warnLevel >= was.warnLevel
    && (forall i :: 0 <= i < 4 && was.address != "" && now - was.confirmedAt >= Rungs(window)[i] ==> becomes.warnLevel > i)
    && (becomes.warnLevel > was.warnLevel ==>
          was.address != "" && becomes.warnLevel <= 4 && now - was.confirmedAt >= Rungs(window)[becomes.warnLevel - 1])
  }

  ghost predicate Expires(was: Family, becomes: Family, window: nat, now: int) {
    && becomes.confirmedAt == was.confirmedAt
    && if was.address != "" && now >= was.confirmedAt + window then becomes.address == "" && becomes.warnLevel == 0
       else becomes == was
  }

  lemma WarnedIsLaddered(f: Family, window: nat, now: int)
    requires window >= SECONDS_PER_DAY
    ensures Laddered(f, Warned(f, window, now), window, now)
  {
    RungsAreInsideWindow(window, now - f.confirmedAt);
  }

  predicate AtFirstRung(f: Family, window: nat, now: int) {
    f.Held() && f.confirmedAt <= now - Rungs(window)[0]
  }

  lemma NotYetAtFirstRung(f: Family, window: nat, now: int)
    requires window >= SECONDS_PER_DAY && !AtFirstRung(f, window, now)
    ensures !Due(f, window, now) && Warned(f, window, now) == f
  {
    RungsAreInsideWindow(window, now - f.confirmedAt);
  }

  /** The row of a device that may be in the feed, candidate or not. */
  lemma SweptOutcome(was: Device, becomes: Device, window: nat, now: int)
    requires window >= SECONDS_PER_DAY
    requires becomes == Swept(was, window, now)
             || (becomes == was && !AtFirstRung(was.v4, window, now) && !AtFirstRung(was.v6, window, now))
    ensures if (was.v4.address != "" && now >= was.v4.confirmedAt + window) || (was.v6.address != "" && now >= was.v6.confirmedAt + window)
            then Expires(was.v4, becomes.v4, window, now) && Expires(was.v6, becomes.v6, window, now)
            else Laddered(was.v4, becomes.v4, window, now) && Laddered(was.v6, becomes.v6, window, now)
  {
    if becomes != Swept(was, window, now) {
      NotYetAtFirstRung(was.v4, window, now);
      NotYetAtFirstRung(was.v6, window, now);
    }
    WarnedIsLaddered(was.v4, window, now);
    WarnedIsLaddered(was.v6, window, now);
  }

  /** A tick, for every device. One that may not be in the feed stays as it was. Of any
      other, the addresses a window old are cleared if there is one, and the others stay;
      if there is none, each address reaches the level of its due rung. */
  lemma TickOutcome(db: Db, ids: seq<DeviceId>, window: nat, now: int, d: DeviceId)
    requires Stored(db) && ListsCandidates(db, ids, window, now) && d in db.devices && window >= SECONDS_PER_DAY
    ensures var was, after := db.devices[d], Tick(db, ids, window, now).db;
      && d in after.devices
      && var becomes := after.devices[d];
         && becomes.owner == was.owner && becomes.disabled == was.disabled
         && if was.disabled || db.users[was.owner] then becomes == was
            else if (was.v4.address != "" && now >= was.v4.confirmedAt + window) || (was.v6.address != "" && now >= was.v6.confirmedAt + window)
            then Expires(was.v4, becomes.v4, window, now) && Expires(was.v6, becomes.v6, window, now)
            else Laddered(was.v4, becomes.v4, window, now) && Laddered(was.v6, becomes.v6, window, now)
  {
    TickSweepsCandidates(db, ids, window, now);
    var was, becomes := db.devices[d], Tick(db, ids, window, now).db.devices[d];
    if Authenticated(db, d) {
      if d !in ids { assert !Candidate(db, d, window, now); }
      SweptOutcome(was, becomes, window, now);
    } else {
      assert !Candidate(db, d, window, now);
    }
  }

  /** A tick is a run of announced writers: its events tell every feed change. */
  lemma {:induction false} TickIsAnnounced(db: Db, ids: seq<DeviceId>, window: nat, now: int)
    requires Stored(db) && forall d <- ids :: d in db.devices && Authenticated(db, d)
    requires forall i, j :: 0 <= i < j < |ids| ==> ids[i] != ids[j]
    ensures var e := Tick(db, ids, window, now); Stored(e.db) && Announces(db, e.db, e.events)
  {
    if ids != [] {
      var last, init := ids[|ids| - 1], ids[..|ids| - 1];
      var done := Tick(db, init, window, now);
      TickIsAnnounced(db, init, window, now);
      TickSweepsCandidates(db, init, window, now);
      assert last !in init;
      ActIsAnnounced(done.db, last, window, now);
      var e := Act(done.db, last, db.devices[last], window, now);
      AnnouncementsCompose(db, done.db, e.db, done.events, e.events);
    }
  }

  lemma AnnouncementsCompose(a: Db, b: Db, c: Db, first: seq<Event>, second: seq<Event>)
    requires Announces(a, b, first) && Announces(b, c, second)
    ensures Announces(a, c, first + second)
  {
    forall id
      ensures FeedAt(c, id) == (if LastWord(first + second, id).Some? then LastWord(first + second, id).value else FeedAt(a, id))
    {
      LastWordOfConcat(first, second, id);
      var w1, w2 := LastWord(first, id), LastWord(second, id);
      assert FeedAt(b, id) == if w1.Some? then w1.value else FeedAt(a, id);
      assert FeedAt(c, id) == if w2.Some? then w2.value else FeedAt(b, id);
    }
  }

  lemma ActIsAnnounced(db: Db, id: DeviceId, window: nat, now: int)
    requires Stored(db) && id in db.devices && Authenticated(db, id)
    ensures var e := Act(db, id, db.devices[id], window, now); Stored(e.db) && Announces(db, e.db, e.events)
  {
    var d := db.devices[id];
    var v4Due, v6Due := Due(d.v4, window, now), Due(d.v6, window, now);
    if v4Due || v6Due {
      ExpiryIsAnnounced(db, id, v4Due, v6Due, now);
      WriterKeepsStored(db, Expire(id, v4Due, v6Due, now));
    } else {
      ActSweepsRow(db, id, window, now);
      var e := Act(db, id, d, window, now);
      assert e.db.devices[id].Pair() == d.Pair();
    }
  }
}
