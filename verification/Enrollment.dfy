/**
 Single-use enrollment codes: internal/store/enrollment_codes.go and ConsumeCode in
 internal/server/service/enrollment.go, which inserts the device first and deletes
 it again when the code turns out to be spent.
 */
module EnrollmentCodes {
  import opened Options
  import opened Sizes

  type Code = string
  type UserId = string
  type DeviceId = string

  /** `device` is SET NULL when the device is deleted. */
  datatype CodeRow = CodeRow(user: UserId, name: string, expiresAt: int, usedAt: Option<int>, device: Option<DeviceId>)

  type Codes = map<Code, CodeRow>

  predicate Consumable(codes: Codes, c: Code, now: int) {
    c in codes && codes[c].usedAt.None? && codes[c].expiresAt > now
  }

  function Consumed(codes: Codes, c: Code, d: DeviceId, now: int): Codes {
    if Consumable(codes, c, now) then codes[c := codes[c].(usedAt := Some(now), device := Some(d))] else codes
  }

  function Pruned(codes: Codes, now: int): Codes {
    map c | c in codes && codes[c].expiresAt >= now :: codes[c]
  }

  /** What deleting a device does to the codes that name it. */
  function Forget(codes: Codes, d: DeviceId): Codes {
    map c | c in codes :: if codes[c].device == Some(d) then codes[c].(device := None) else codes[c]
  }

  class CodeTable {
    var codes: Codes

    constructor ()
      ensures codes == map[]
    {
      codes := map[];
    }

    method Create(c: Code, row: CodeRow) returns (ok: bool)
      modifies this
      ensures ok == (c !in old(codes)) && codes == if ok then old(codes)[c := row] else old(codes)
    {
      ok := c !in codes;
      if ok { codes := codes[c := row]; }
    }

    /** The UPDATE of Consume; the read that follows it is a step of its own. */
    method Consume(c: Code, d: DeviceId, now: int) returns (matched: bool)
      modifies this
      ensures codes == Consumed(old(codes), c, d, now) && matched == Consumable(old(codes), c, now)
    {
      matched := c in codes && codes[c].usedAt.None? && codes[c].expiresAt > now;
      if matched { codes := codes[c := codes[c].(usedAt := Some(now), device := Some(d))]; }
    }

    method PruneExpired(now: int) returns (n: nat)
      modifies this
      ensures codes == Pruned(old(codes), now) && n == |old(codes)| - |codes|
    {
      var gone := set c | c in codes && codes[c].expiresAt < now;
      n := |gone|;
      RemovedSize(codes, gone);
      codes := codes - gone;
    }
  }
}

/**
 Every interleaving of redeems with renames, deletions, other enrollments and
 pruning. A step that is not enabled changes nothing.
 */
module Enrollment {
  import opened Options
  import opened EnrollmentCodes

  type RedeemId = nat

  datatype Device = Device(user: UserId, name: string)

  datatype Answer = Success(device: DeviceId) | NotFound | Conflict | StoreError

  /** `now` is read once, before the device is created. `Clashed` will re-read the
      code, `Updated` has marked it used and will re-read it, `RollingBack` will delete
      its device. */
  datatype Phase =
    | Checked | Clashed
    | Created(device: DeviceId) | Updated(device: DeviceId) | RollingBack(device: DeviceId, answer: Answer)
    | Ended(answer: Answer)

  datatype Redeem = Redeem(code: Code, user: UserId, name: string, now: int, phase: Phase)

  /** `minted` is every code and `born` every device id ever made; `origin` says which
      redeem created a device and `winner` which redeem marked a code used. */
  datatype System = System(
    codes: Codes, devices: map<DeviceId, Device>, redeems: map<RedeemId, Redeem>,
    minted: set<Code>, born: set<DeviceId>, origin: map<DeviceId, RedeemId>, winner: map<Code, RedeemId>)

  datatype Step =
    | Mint(code: Code, user: UserId, name: string, expiresAt: int)
    | Start(r: RedeemId, code: Code, now: int)
    | CreateDevice(r: RedeemId, device: DeviceId, ok: bool)
    | RereadAfterClash(r: RedeemId, ok: bool)
    | Consume(r: RedeemId, ok: bool)
    | RereadAfterUpdate(r: RedeemId, ok: bool)
    | Rollback(r: RedeemId)
    | EnrollOther(device: DeviceId, user: UserId, name: string)
    | Rename(device: DeviceId, name: string)
    | DeleteDevice(device: DeviceId)
    | PruneCodes(now: int)

  const INIT := System(map[], map[], map[], {}, {}, map[], map[])

  // --------------------------------------------------------------------- steps

  predicate Taken(y: System, user: UserId, name: string) {
    exists d <- y.devices :: y.devices[d] == Device(user, name)
  }

  predicate Is(y: System, r: RedeemId, p: Phase) {
    r in y.redeems && y.redeems[r].phase == p
  }

  function To(y: System, r: RedeemId, p: Phase): System
    requires r in y.redeems
  {
    y.(redeems := y.redeems[r := y.redeems[r].(phase := p)])
  }

  function StepStart(y: System, r: RedeemId, c: Code, now: int): System {
    if r in y.redeems then y
    else
      var row := if c in y.codes then y.codes[c] else CodeRow("", "", 0, None, None);
      y.(redeems := y.redeems[r :=
           Redeem(c, row.user, row.name, now, if Consumable(y.codes, c, now) then Checked else Ended(NotFound))])
  }

  function Born(y: System, r: RedeemId, d: DeviceId): System
    requires r in y.redeems
  {
    To(y, r, Created(d)).(devices := y.devices[d := Device(y.redeems[r].user, y.redeems[r].name)],
                          born := y.born + {d}, origin := y.origin[d := r])
  }

  /** The insert fails on a label clash, or for another reason when `ok` is false. */
  function StepCreate(y: System, r: RedeemId, d: DeviceId, ok: bool): System {
    if !Is(y, r, Checked) || d in y.born then y
    else if !ok then To(y, r, Ended(StoreError))
    else if Taken(y, y.redeems[r].user, y.redeems[r].name) then To(y, r, Clashed)
    else Born(y, r, d)
  }

  /** The gate. It also fails when the device it would name is already gone. */
  function StepConsume(y: System, r: RedeemId, ok: bool): System {
    if r !in y.redeems || !y.redeems[r].phase.Created? then y
    else
      var m, d := y.redeems[r], y.redeems[r].phase.device;
      if !ok || (Consumable(y.codes, m.code, m.now) && d !in y.devices) then To(y, r, RollingBack(d, StoreError))
      else if !Consumable(y.codes, m.code, m.now) then To(y, r, RollingBack(d, NotFound))
      else To(y, r, Updated(d)).(codes := Consumed(y.codes, m.code, d, m.now), winner := y.winner[m.code := r])
  }

  function Without(y: System, d: DeviceId): System {
    y.(devices := y.devices - {d}, codes := Forget(y.codes, d))
  }

  function Next(y: System, step: Step): System {
    match step
    case Mint(c, user, name, expiresAt) =>
      if c in y.minted then y
      else y.(codes := y.codes[c := CodeRow(user, name, expiresAt, None, None)], minted := y.minted + {c})
    case Start(r, c, now) => StepStart(y, r, c, now)
    case CreateDevice(r, d, ok) => StepCreate(y, r, d, ok)
    case RereadAfterClash(r, ok) =>
      if !Is(y, r, Clashed) then y
      else
        var c := y.redeems[r].code;
        To(y, r, Ended(if ok && c in y.codes && y.codes[c].usedAt.Some? then NotFound else Conflict))
    case Consume(r, ok) => StepConsume(y, r, ok)
    case RereadAfterUpdate(r, ok) =>
      if r !in y.redeems || !y.redeems[r].phase.Updated? then y
      else
        var d := y.redeems[r].phase.device;
        To(y, r, if !ok then RollingBack(d, StoreError)
                 else if y.redeems[r].code in y.codes then Ended(Success(d)) else RollingBack(d, NotFound))
    case Rollback(r) =>
      if r !in y.redeems || !y.redeems[r].phase.RollingBack? then y
      else Without(To(y, r, Ended(y.redeems[r].phase.answer)), y.redeems[r].phase.device)
    case EnrollOther(d, user, name) =>
      if d in y.born || Taken(y, user, name) then y
      else y.(devices := y.devices[d := Device(user, name)], born := y.born + {d})
    case Rename(d, name) =>
      if d !in y.devices || Taken(y, y.devices[d].user, name) then y
      else y.(devices := y.devices[d := y.devices[d].(name := name)])
    case DeleteDevice(d) => Without(y, d)
    case PruneCodes(now) => y.(codes := Pruned(y.codes, now))
  }

  function Run(steps: seq<Step>): System {
    if steps == [] then INIT else Next(Run(steps[..|steps| - 1]), steps[|steps| - 1])
  }

  // ---------------------------------------------------------------- invariants

  /** The device a redeem answers for, if any. */
  function DeviceOf(p: Phase): Option<DeviceId> {
    match p
    case Created(d) => Some(d)
    case Updated(d) => Some(d)
    case RollingBack(d, _) => Some(d)
    case Ended(Success(d)) => Some(d)
    case _ => None
  }

  /** A surviving device of a redeem is the one that redeem answers for. */
  ghost predicate Answered(y: System) {
    && y.devices.Keys <= y.born && y.origin.Keys <= y.born
    && (forall d <- y.origin :: y.origin[d] in y.redeems)
    && (forall d <- y.devices :: d in y.origin ==> DeviceOf(y.redeems[y.origin[d]].phase) == Some(d))
    && (forall r <- y.redeems :: DeviceOf(y.redeems[r].phase).Some? ==>
          var d := DeviceOf(y.redeems[r].phase).value; d in y.origin && y.origin[d] == r)
    && (forall r <- y.redeems :: y.redeems[r].phase.RollingBack? ==> !y.redeems[r].phase.answer.Success?)
  }

  /** Whoever won a code went past its gate, and only winners succeed. */
  ghost predicate Winners(y: System) {
    && y.winner.Keys <= y.minted
    && (forall c <- y.winner :: y.winner[c] in y.redeems && y.redeems[y.winner[c]].code == c && PastGate(y.redeems[y.winner[c]].phase))
    && (forall r <- y.redeems :: y.redeems[r].phase.Updated? || IsSuccess(y.redeems[r].phase) ==>
          var m := y.redeems[r]; m.code in y.winner && y.winner[m.code] == r)
  }

  /** A code is used exactly when some redeem won it, and names that redeem's device. */
  ghost predicate Rows(y: System) {
    && y.codes.Keys <= y.minted
    && (forall c <- y.codes :: y.codes[c].usedAt.Some? <==> c in y.winner)
    && (forall c <- y.codes :: y.codes[c].device == Named(y, c))
  }

  /** What a code's row names: the device its winner answers for, while it exists. */
  function Named(y: System, c: Code): Option<DeviceId> {
    if c !in y.winner || y.winner[c] !in y.redeems then None
    else
      var d := DeviceOf(y.redeems[y.winner[c]].phase);
      if d.Some? && d.value in y.devices then d else None
  }

  predicate PastGate(p: Phase) { p.Updated? || p.RollingBack? || p.Ended? }

  predicate IsSuccess(p: Phase) { p.Ended? && p.answer.Success? }

  ghost predicate Inv(y: System) { Answered(y) && Winners(y) && Rows(y) }

  lemma MintKeepsInv(y: System, step: Step)
    requires Inv(y) && step.Mint?
    ensures Inv(Next(y, step))
  {
    RowsFrame(y, Next(y, step));
  }

  lemma PruneKeepsInv(y: System, now: int)
    requires Inv(y)
    ensures Inv(Next(y, PruneCodes(now)))
  {
    RowsFrame(y, Next(y, PruneCodes(now)));
  }

  lemma DevicesStepKeepsInv(y: System, step: Step)
    requires Inv(y) && (step.EnrollOther? || step.Rename?)
    ensures Inv(Next(y, step))
  {
    RowsFrame(y, Next(y, step));
  }

  /** The codes of z are codes of y, or new ones that nobody won, and nothing changed
      about which of the devices that redeems answer for survive. */
  lemma RowsFrame(y: System, z: System)
    requires Answered(y) && Winners(y) && Rows(y) && z.winner == y.winner && z.redeems == y.redeems && y.minted <= z.minted
    requires z.codes.Keys <= z.minted
    requires forall c <- z.codes :: if c in y.codes then z.codes[c] == y.codes[c]
                                    else z.codes[c].usedAt.None? && z.codes[c].device.None? && c !in y.minted
    requires forall d :: d in y.origin ==> (d in z.devices <==> d in y.devices)
    ensures Rows(z)
  {
    assert forall c <- z.codes :: Named(z, c) == Named(y, c);
  }

  lemma DeletionKeepsInv(y: System, d: DeviceId)
    requires Inv(y)
    ensures Inv(Without(y, d))
  {
  }

  /** z differs from y in the phase of one redeem, old or new, that answers for the
      same device as before. */
  lemma PhaseKeepsRows(y: System, z: System, r: RedeemId)
    requires Winners(y) && Rows(y) && z == y.(redeems := z.redeems)
    requires forall q <- y.redeems :: q in z.redeems && DeviceOf(z.redeems[q].phase) == DeviceOf(y.redeems[q].phase)
    ensures Rows(z)
  {
    assert forall c <- z.codes :: Named(z, c) == Named(y, c);
  }

  lemma StartKeepsAnswered(y: System, r: RedeemId, c: Code, now: int)
    requires Answered(y)
    ensures Answered(StepStart(y, r, c, now))
  {
  }

  lemma StartKeepsInv(y: System, r: RedeemId, c: Code, now: int)
    requires Inv(y)
    ensures Inv(StepStart(y, r, c, now))
  {
    StartKeepsAnswered(y, r, c, now);
    PhaseKeepsRows(y, StepStart(y, r, c, now), r);
  }

  /** A redeem moves on with the device it had, and does not come to win. */
  lemma PhaseKeepsInv(y: System, r: RedeemId, p: Phase)
    requires Inv(y) && r in y.redeems && DeviceOf(p) == DeviceOf(y.redeems[r].phase)
    requires p.RollingBack? ==> !p.answer.Success?
    requires PastGate(y.redeems[r].phase) ==> PastGate(p)
    requires p.Updated? || IsSuccess(p) ==> y.redeems[r].phase.Updated?
    ensures Inv(To(y, r, p))
  {
    PhaseKeepsRows(y, To(y, r, p), r);
  }

  lemma BirthKeepsAnswered(y: System, r: RedeemId, d: DeviceId)
    requires Answered(y) && Is(y, r, Checked) && d !in y.born
    ensures Answered(Born(y, r, d))
  {
  }

  lemma BirthKeepsRows(y: System, r: RedeemId, d: DeviceId)
    requires Answered(y) && Winners(y) && Rows(y) && Is(y, r, Checked) && d !in y.born
    ensures Rows(Born(y, r, d))
  {
    var z := Born(y, r, d);
    forall c <- z.codes ensures Named(z, c) == Named(y, c) {
      if c in y.winner {
        var p := y.redeems[y.winner[c]].phase;
        assert z.redeems[y.winner[c]].phase == p;
        assert DeviceOf(p).Some? ==> DeviceOf(p).value in y.born;
      }
    }
  }

  lemma CreationKeepsInv(y: System, r: RedeemId, d: DeviceId, ok: bool)
    requires Inv(y)
    ensures Inv(StepCreate(y, r, d, ok))
  {
    if Is(y, r, Checked) && d !in y.born {
      if !ok { PhaseKeepsInv(y, r, Ended(StoreError)); }
      else if Taken(y, y.redeems[r].user, y.redeems[r].name) { PhaseKeepsInv(y, r, Clashed); }
      else {
        BirthKeepsAnswered(y, r, d);
        BirthKeepsRows(y, r, d);
      }
    }
  }

  /** The winning update: the code was not won before. */
  lemma WinKeepsRows(y: System, r: RedeemId)
    requires Winners(y) && Rows(y) && r in y.redeems && y.redeems[r].phase.Created? && y.redeems[r].phase.device in y.devices
    requires Consumable(y.codes, y.redeems[r].code, y.redeems[r].now)
    ensures Rows(StepConsume(y, r, true))
  {
    var z, won := StepConsume(y, r, true), y.redeems[r].code;
    assert Named(z, won) == Some(y.redeems[r].phase.device);
    assert forall c <- z.codes :: c != won ==> Named(z, c) == Named(y, c);
  }

  lemma WinKeepsInv(y: System, r: RedeemId)
    requires Inv(y) && r in y.redeems && y.redeems[r].phase.Created? && y.redeems[r].phase.device in y.devices
    requires Consumable(y.codes, y.redeems[r].code, y.redeems[r].now)
    ensures Inv(StepConsume(y, r, true))
  {
    WinKeepsRows(y, r);
    assert y.redeems[r].code !in y.winner;
  }

  lemma ConsumeKeepsInv(y: System, r: RedeemId, ok: bool)
    requires Inv(y)
    ensures Inv(StepConsume(y, r, ok))
  {
    if r in y.redeems && y.redeems[r].phase.Created? {
      var m, d := y.redeems[r], y.redeems[r].phase.device;
      if !ok || (Consumable(y.codes, m.code, m.now) && d !in y.devices) { PhaseKeepsInv(y, r, RollingBack(d, StoreError)); }
      else if !Consumable(y.codes, m.code, m.now) { PhaseKeepsInv(y, r, RollingBack(d, NotFound)); }
      else { WinKeepsInv(y, r); }
    }
  }

  /** A redeem whose device is gone stops answering for it. */
  lemma DoneKeepsInv(y: System, r: RedeemId, answer: Answer)
    requires Inv(y) && r in y.redeems && y.redeems[r].phase.RollingBack? && !answer.Success?
    requires y.redeems[r].phase.device !in y.devices
    ensures Inv(To(y, r, Ended(answer)))
  {
    var z := To(y, r, Ended(answer));
    assert forall c <- z.codes :: Named(z, c) == Named(y, c);
  }

  /** The compensating delete: the device goes, then nobody answers for it. */
  lemma RollbackKeepsInv(y: System, r: RedeemId)
    requires Inv(y) && r in y.redeems && y.redeems[r].phase.RollingBack?
    ensures Inv(Next(y, Rollback(r)))
  {
    var p := y.redeems[r].phase;
    DeletionKeepsInv(y, p.device);
    assert p.device in y.origin && y.origin[p.device] == r;
    DoneKeepsInv(Without(y, p.device), r, p.answer);
    assert Next(y, Rollback(r)) == To(Without(y, p.device), r, Ended(p.answer));
  }

  lemma StepKeepsInv(y: System, step: Step)
    requires Inv(y)
    ensures Inv(Next(y, step))
  {
    match step
    case Start(r, c, now) => StartKeepsInv(y, r, c, now);
    case CreateDevice(r, d, ok) =>
      CreationKeepsInv(y, r, d, ok);
    case RereadAfterClash(r, ok) =>
      if Is(y, r, Clashed) { PhaseKeepsInv(y, r, Next(y, step).redeems[r].phase); }
    case Consume(r, ok) => ConsumeKeepsInv(y, r, ok);
    case RereadAfterUpdate(r, ok) =>
      if r in y.redeems && y.redeems[r].phase.Updated? { PhaseKeepsInv(y, r, Next(y, step).redeems[r].phase); }
    case Rollback(r) => if r in y.redeems && y.redeems[r].phase.RollingBack? { RollbackKeepsInv(y, r); }
    case DeleteDevice(d) => DeletionKeepsInv(y, d);
    case Mint(_, _, _, _) => MintKeepsInv(y, step);
    case PruneCodes(now) => PruneKeepsInv(y, now);
    case _ => DevicesStepKeepsInv(y, step);
  }

  lemma {:induction false} RunKeepsInv(steps: seq<Step>)
    ensures Inv(Run(steps))
  {
    if steps != [] {
      RunKeepsInv(steps[..|steps| - 1]);
      StepKeepsInv(Run(steps[..|steps| - 1]), steps[|steps| - 1]);
    }
  }

  // ------------------------------------------------------- one redeem, undisturbed

  /** The row of a code after its device, if any, was named or forgotten. */
  lemma TableOutcome(codes: Codes, c: Code, d: DeviceId, now: int)
    ensures Consumable(codes, c, now) <==> c in codes && codes[c].usedAt.None? && now < codes[c].expiresAt
    ensures Consumed(codes, c, d, now) ==
              if c in codes && codes[c].usedAt.None? && now < codes[c].expiresAt
              then codes[c := CodeRow(codes[c].user, codes[c].name, codes[c].expiresAt, Some(now), Some(d))] else codes
    ensures c in Pruned(codes, now) <==> c in codes && codes[c].expiresAt >= now
    ensures c in Pruned(codes, now) ==> Pruned(codes, now)[c] == codes[c]
    ensures Forget(codes, d).Keys == codes.Keys
    ensures c in codes ==> Forget(codes, d)[c] == if codes[c].device == Some(d) then codes[c].(device := None) else codes[c]
  {
  }

  /** A new code is usable until it expires, and names no device. */
  lemma MintOutcome(y: System, c: Code, user: UserId, name: string, expiresAt: int, now: int)
    requires c !in y.minted
    ensures var z := Next(y, Mint(c, user, name, expiresAt));
      && z.codes == y.codes[c := CodeRow(user, name, expiresAt, None, None)] && z.devices == y.devices && z.redeems == y.redeems
      && (Consumable(z.codes, c, now) <==> now < expiresAt)
  {
  }

  /** Other enrolments and renames, unless the label is taken. */
  lemma OtherDevicesOutcome(y: System, d: DeviceId, user: UserId, name: string)
    ensures var free := forall e <- y.devices :: y.devices[e] != Device(user, name);
      Next(y, EnrollOther(d, user, name)).devices == if d !in y.born && free then y.devices[d := Device(user, name)] else y.devices
    ensures d in y.devices ==>
              var u := y.devices[d].user;
              var free := forall e <- y.devices :: y.devices[e] != Device(u, name);
              Next(y, Rename(d, name)).devices == if free then y.devices[d := Device(u, name)] else y.devices
    ensures Next(y, DeleteDevice(d)).devices == y.devices - {d}
  {
  }

  /** A usable code, and a free label: the redeem wins. The new device has the account and
      the label of the code, and the code's row names it. */
  lemma FreshCodeEnrols(y: System, r: RedeemId, c: Code, d: DeviceId, now: int)
    requires r !in y.redeems && d !in y.born && c in y.codes && y.codes[c].usedAt.None? && now < y.codes[c].expiresAt
    requires forall e <- y.devices :: y.devices[e] != Device(y.codes[c].user, y.codes[c].name)
    ensures var z := Next(Next(Next(Next(y, Start(r, c, now)), CreateDevice(r, d, true)), Consume(r, true)), RereadAfterUpdate(r, true));
      && r in z.redeems && z.redeems[r].phase == Ended(Success(d))
      && z.devices == y.devices[d := Device(y.codes[c].user, y.codes[c].name)]
      && z.codes == y.codes[c := CodeRow(y.codes[c].user, y.codes[c].name, y.codes[c].expiresAt, Some(now), Some(d))]
  {
    var a := Next(y, Start(r, c, now));
    assert a == y.(redeems := y.redeems[r := Redeem(c, y.codes[c].user, y.codes[c].name, now, Checked)]);
    var b := Next(a, CreateDevice(r, d, true));
    assert b.redeems[r].phase == Created(d) && b.devices == y.devices[d := Device(y.codes[c].user, y.codes[c].name)] && b.codes == y.codes;
    assert Consumable(b.codes, c, now);
  }

  /** A code that is unknown, used or expired is refused before a device is made. */
  lemma SpentCodeIsRefused(y: System, r: RedeemId, c: Code, now: int)
    requires r !in y.redeems && !(c in y.codes && y.codes[c].usedAt.None? && now < y.codes[c].expiresAt)
    ensures var z := Next(y, Start(r, c, now));
      z.redeems[r].phase == Ended(NotFound) && z.devices == y.devices && z.codes == y.codes
  {
  }

  /** The second look after the update: the device is reported while the code's row is
      there; a row that is gone, or a store that fails, takes the device back. */
  lemma RereadOutcome(y: System, r: RedeemId, d: DeviceId, ok: bool)
    requires r in y.redeems && y.redeems[r].phase == Updated(d)
    ensures Next(y, RereadAfterUpdate(r, ok)).redeems[r].phase
         == if !ok then RollingBack(d, StoreError)
            else if y.redeems[r].code in y.codes then Ended(Success(d)) else RollingBack(d, NotFound)
  {
  }

  /** A redeem that created its device and then finds the code spent reports so, and its
      device is gone. */
  lemma LoserLeavesNoDevice(y: System, r: RedeemId, d: DeviceId)
    requires r in y.redeems && y.redeems[r].phase == Created(d)
    requires var m := y.redeems[r]; !(m.code in y.codes && y.codes[m.code].usedAt.None? && m.now < y.codes[m.code].expiresAt)
    ensures var z := Next(Next(y, Consume(r, true)), Rollback(r));
      z.redeems[r].phase == Ended(NotFound) && z.devices == y.devices - {d} && z.codes.Keys == y.codes.Keys
  {
    var a := Next(y, Consume(r, true));
    assert a == To(y, r, RollingBack(d, NotFound));
  }

  /** A label that is taken is a conflict, unless the code was spent meanwhile. */
  lemma ClashOutcome(y: System, r: RedeemId, d: DeviceId, taken: DeviceId)
    requires r in y.redeems && y.redeems[r].phase == Checked && d !in y.born
    requires taken in y.devices && y.devices[taken] == Device(y.redeems[r].user, y.redeems[r].name)
    ensures var z := Next(Next(y, CreateDevice(r, d, true)), RereadAfterClash(r, true));
      var c := y.redeems[r].code;
      && z.redeems[r].phase == Ended(if c in y.codes && y.codes[c].usedAt.Some? then NotFound else Conflict)
      && z.devices == y.devices && z.codes == y.codes
  {
    assert Taken(y, y.redeems[r].user, y.redeems[r].name);
    var a := Next(y, CreateDevice(r, d, true));
    assert a == To(y, r, Clashed);
  }

  // -------------------------------------------------------------- main results

  /** The surviving devices some redeem of the code created. */
  function DevicesOf(y: System, c: Code): set<DeviceId> {
    set d | d in y.devices && d in y.origin && y.origin[d] in y.redeems && y.redeems[y.origin[d]].code == c
  }

  predicate InFlight(y: System, c: Code) {
    exists r <- y.redeems :: y.redeems[r].code == c && !y.redeems[r].phase.Ended?
  }

  /** One device per code. In every reachable state in which no redeem of the code is in
      flight, the surviving devices created from it are none, or the one device its
      winning redeem reported; while the code's row exists, that device is the one the
      row names, and an unused code has none. */
  lemma OneDevicePerCode(steps: seq<Step>, c: Code)
    ensures var y := Run(steps);
      !InFlight(y, c) ==>
        && (c !in y.winner ==> DevicesOf(y, c) == {})
        && (c in y.winner ==>
              var w := y.winner[c];
              w in y.redeems && DevicesOf(y, c) <= (if IsSuccess(y.redeems[w].phase) then {y.redeems[w].phase.answer.device} else {}))
        && (c in y.codes ==> DevicesOf(y, c) == if y.codes[c].device.Some? then {y.codes[c].device.value} else {})
        && (c in y.codes && y.codes[c].usedAt.None? ==> DevicesOf(y, c) == {})
  {
    RunKeepsInv(steps);
    var y := Run(steps);
    if !InFlight(y, c) {
      forall d | d in DevicesOf(y, c) ensures IsSuccess(y.redeems[y.origin[d]].phase) && y.redeems[y.origin[d]].phase.answer.device == d {
        assert y.redeems[y.origin[d]].phase.Ended?;
      }
    }
  }

  /** At most one redeem of a code ever reports success. */
  lemma OneSuccessPerCode(steps: seq<Step>, r: RedeemId, s: RedeemId)
    ensures var y := Run(steps);
      && r in y.redeems && IsSuccess(y.redeems[r].phase)
      && s in y.redeems && IsSuccess(y.redeems[s].phase)
      && y.redeems[r].code == y.redeems[s].code
      ==> r == s
  {
    RunKeepsInv(steps);
  }
}
