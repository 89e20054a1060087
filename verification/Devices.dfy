/**
 The device table, its per-family confirmation instants and warning levels, and
 the ip_history table: internal/store/devices.go, internal/store/checkin.go and
 appendIPHistory in internal/store/ip_history.go.

 Every statement (or closed transaction) is a function on the tables; class
 Server.DeviceServer performs them on fields and is proved to compute these.
 */
module Devices {
  type UserId = string
  type DeviceId = string
  /** A stored address in canonical text; the empty string is the SQL NULL. */
  type Address = string

  /** One address family of a device row: the current address, the last check-in
      in which the client asserted it, and its position on the warning ladder. */
  datatype Family = Family(address: Address, confirmedAt: int, warnLevel: nat) {
    predicate Held() { address != "" }

    /** A contact that may have asserted this family. */
    function Contact(asserted: bool, now: int): Family {
      if asserted then this.(confirmedAt := now, warnLevel := 0) else this
    }

    /** What an expiry write leaves of a family. */
    function Expired(due: bool): Family {
      if due then this.(address := "", warnLevel := 0) else this
    }
  }

  datatype Device = Device(owner: UserId, disabled: bool, v4: Family, v6: Family) {
    function Pair(): Addrs { Addrs(v4.address, v6.address) }
  }

  datatype Addrs = Addrs(v4: Address, v6: Address)

  const NO_ADDRS := Addrs("", "")

  datatype HistoryRow = HistoryRow(device: DeviceId, pair: Addrs, observedAt: int)

  /** The tables. `users` maps an account to its disabled flag; `history` is keyed
      by the AUTOINCREMENT id, and `nextId` is the id the next insert receives. */
  datatype Db = Db(
    users: map<UserId, bool>,
    devices: map<DeviceId, Device>,
    history: map<nat, HistoryRow>,
    nextId: nat,
    feedSeq: nat)

  /** What the foreign keys and AUTOINCREMENT guarantee of any stored state. */
  ghost predicate Stored(db: Db) {
    && (forall d <- db.devices :: db.devices[d].owner in db.users)
    && (forall h <- db.history :: h < db.nextId && db.history[h].device in db.devices)
  }

  // ---------------------------------------------------------------- statements

  function AppendHistory(db: Db, id: DeviceId, pair: Addrs, now: int): Db {
    db.(history := db.history[db.nextId := HistoryRow(id, pair, now)], nextId := db.nextId + 1)
  }

  /** The contact write of a check-in that changed nothing. */
  function Touch(db: Db, id: DeviceId, v4Asserted: bool, v6Asserted: bool, now: int): Db
    requires id in db.devices
  {
    var d := db.devices[id];
    db.(devices := db.devices[id :=
          d.(v4 := d.v4.Contact(v4Asserted, now), v6 := d.v6.Contact(v6Asserted, now))])
  }

  /** The device row and its history row in one transaction. */
  function RecordIPChange(db: Db, id: DeviceId, pair: Addrs, v4Asserted: bool, v6Asserted: bool, now: int): Db
    requires id in db.devices
  {
    var d := db.devices[id];
    var row := d.(v4 := d.v4.Contact(v4Asserted, now).(address := pair.v4),
                  v6 := d.v6.Contact(v6Asserted, now).(address := pair.v6));
    AppendHistory(db.(devices := db.devices[id := row]), id, pair, now)
  }

  /** Merge-on-empty: an omitted family keeps the stored value. */
  function Merge(stored: Addrs, report: Addrs): Addrs {
    Addrs(if report.v4 == "" then stored.v4 else report.v4,
          if report.v6 == "" then stored.v6 else report.v6)
  }

  /** CheckinService.Checkin on a device that exists. */
  function CheckIn(db: Db, id: DeviceId, report: Addrs, now: int): Db
    requires id in db.devices
  {
    var stored := db.devices[id].Pair();
    var effective := Merge(stored, report);
    if effective == stored then Touch(db, id, report.v4 != "", report.v6 != "", now)
    else RecordIPChange(db, id, effective, report.v4 != "", report.v6 != "", now)
  }

  /** The WHERE clause of the expiry write: the row is still pinned on the instants
      the sweep read, and a due family still holds an address. */
  predicate ExpiryApplies(db: Db, id: DeviceId, v4Due: bool, v6Due: bool, pinV4: int, pinV6: int) {
    && id in db.devices
    && db.devices[id].v4.confirmedAt == pinV4
    && db.devices[id].v6.confirmedAt == pinV6
    && ((v4Due && db.devices[id].v4.Held()) || (v6Due && db.devices[id].v6.Held()))
  }

  function ExpireFamilies(db: Db, id: DeviceId, v4Due: bool, v6Due: bool, pinV4: int, pinV6: int, now: int): Db {
    if ExpiryApplies(db, id, v4Due, v6Due, pinV4, pinV6) then
      var d := db.devices[id];
      var after := d.(v4 := d.v4.Expired(v4Due), v6 := d.v6.Expired(v6Due));
      AppendHistory(db.(devices := db.devices[id := after]), id, after.Pair(), now)
    else db
  }

  datatype FamilyName = V4 | V6

  function FamilyOf(d: Device, f: FamilyName): Family {
    if f.V4? then d.v4 else d.v6
  }

  function WithFamily(d: Device, f: FamilyName, to: Family): Device {
    if f.V4? then d.(v4 := to) else d.(v6 := to)
  }

  predicate AdvanceApplies(db: Db, id: DeviceId, f: FamilyName, fromLevel: nat, pinV4: int, pinV6: int) {
    && id in db.devices
    && FamilyOf(db.devices[id], f).warnLevel == fromLevel
    && db.devices[id].v4.confirmedAt == pinV4
    && db.devices[id].v6.confirmedAt == pinV6
  }

  function AdvanceWarnLevel(db: Db, id: DeviceId, f: FamilyName, level: nat, fromLevel: nat, pinV4: int, pinV6: int): Db {
    if AdvanceApplies(db, id, f, fromLevel, pinV4, pinV6) then
      var d := db.devices[id];
      db.(devices := db.devices[id := WithFamily(d, f, FamilyOf(d, f).(warnLevel := level))])
    else db
  }

  function DeleteDevice(db: Db, id: DeviceId): Db {
    db.(devices := db.devices - {id},
        history := map h | h in db.history && db.history[h].device != id :: db.history[h])
  }

  function DeleteUser(db: Db, u: UserId): Db {
    db.(users := db.users - {u},
        devices := map d | d in db.devices && db.devices[d].owner != u :: db.devices[d],
        history := map h | h in db.history && !(db.history[h].device in db.devices
                           && db.devices[db.history[h].device].owner == u) :: db.history[h])
  }

  // ------------------------------------------------- the row agrees with history

  /** h is the highest-id history row of device d. */
  ghost predicate IsNewest(db: Db, d: DeviceId, h: nat) {
    && h in db.history && db.history[h].device == d
    && forall k <- db.history :: db.history[k].device == d ==> k <= h
  }

  /** The newest history row of every device is its current address pair, and a
      device with no history has no address. */
  ghost predicate RowMatchesHistory(db: Db) {
    forall d <- db.devices ::
      && (forall h :: IsNewest(db, d, h) ==> db.history[h].pair == db.devices[d].Pair())
      && ((forall h <- db.history :: db.history[h].device != d) ==> db.devices[d].Pair() == NO_ADDRS)
  }
}
