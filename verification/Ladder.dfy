/**
 The pinned writes of the sweep under interleaving: any number of ticks may have
 read one device and act on what they read later, while the device checks in. The
 statements are those of module Devices; a tick's decision is that of module Sweep.
 */
module Ladder {
  import opened Devices
  import opened Sweep

  /** A tick's reading of the device. */
  datatype Read = Read(at: int, row: Device)

  datatype Notice = Notice(family: FamilyName, confirmedAt: int, rung: nat)
  datatype Clearing = Clearing(family: FamilyName, confirmedAt: int, at: int)

  /** `notices` are the warnings sent and `clearings` the addresses cleared so far. */
  datatype State = State(db: Db, id: DeviceId, now: int, inFlight: seq<Read>, notices: seq<Notice>, clearings: seq<Clearing>)

  datatype Step =
    | Wait(seconds: nat)
    | CheckIn(report: Addrs)
    | Begin
    | Expire(read: nat)
    | Advance(read: nat, family: FamilyName)
    | End(read: nat)

  function Fam(y: State, f: FamilyName): Family
    requires y.id in y.db.devices
  {
    FamilyOf(y.db.devices[y.id], f)
  }

  predicate AnyDue(r: Read, window: nat) {
    Due(r.row.v4, window, r.at) || Due(r.row.v6, window, r.at)
  }

  function Clearings(y: State, r: Read, window: nat): seq<Clearing>
    requires y.id in y.db.devices
  {
    (if Due(r.row.v4, window, r.at) && Fam(y, V4).Held() then [Clearing(V4, Fam(y, V4).confirmedAt, y.now)] else [])
    + (if Due(r.row.v6, window, r.at) && Fam(y, V6).Held() then [Clearing(V6, Fam(y, V6).confirmedAt, y.now)] else [])
  }

  function StepExpire(y: State, r: Read, window: nat): State
    requires y.id in y.db.devices
  {
    var v4Due, v6Due := Due(r.row.v4, window, r.at), Due(r.row.v6, window, r.at);
    var pinV4, pinV6 := r.row.v4.confirmedAt, r.row.v6.confirmedAt;
    if ExpiryApplies(y.db, y.id, v4Due, v6Due, pinV4, pinV6)
    then y.(db := ExpireFamilies(y.db, y.id, v4Due, v6Due, pinV4, pinV6, y.now),
            clearings := y.clearings + Clearings(y, r, window))
    else y
  }

  /** The tick decided to warn, and its pinned write still applies. */
  predicate AdvanceHappens(y: State, r: Read, f: FamilyName, window: nat) {
    var fam := FamilyOf(r.row, f);
    && !AnyDue(r, window) && fam.Held() && DueRung(window, r.at - fam.confirmedAt) > fam.warnLevel
    && AdvanceApplies(y.db, y.id, f, fam.warnLevel, r.row.v4.confirmedAt, r.row.v6.confirmedAt)
  }

  function StepAdvance(y: State, r: Read, f: FamilyName, window: nat): State {
    var fam := FamilyOf(r.row, f);
    var due := DueRung(window, r.at - fam.confirmedAt);
    if AdvanceHappens(y, r, f, window)
    then y.(db := AdvanceWarnLevel(y.db, y.id, f, due, fam.warnLevel, r.row.v4.confirmedAt, r.row.v6.confirmedAt),
            notices := y.notices + [Notice(f, fam.confirmedAt, due)])
    else y
  }

  function Next(y: State, step: Step, window: nat): (z: State)
    requires y.id in y.db.devices
    ensures z.id == y.id && z.id in z.db.devices
  {
    match step
    case Wait(seconds) => y.(now := y.now + seconds)
    case CheckIn(report) => y.(db := Devices.CheckIn(y.db, y.id, report, y.now))
    case Begin => y.(inFlight := y.inFlight + [Read(y.now, y.db.devices[y.id])])
    case Expire(i) => if i < |y.inFlight| then StepExpire(y, y.inFlight[i], window) else y
    case Advance(i, f) => if i < |y.inFlight| then StepAdvance(y, y.inFlight[i], f, window) else y
    case End(i) => if i < |y.inFlight| then y.(inFlight := y.inFlight[..i] + y.inFlight[i + 1..]) else y
  }

  function Run(y: State, steps: seq<Step>, window: nat): (z: State)
    requires y.id in y.db.devices
    ensures z.id == y.id && z.id in z.db.devices
  {
    if steps == [] then y else Next(Run(y, steps[..|steps| - 1], window), steps[|steps| - 1], window)
  }

  // ---------------------------------------------------------------- invariants

  /** Instants lie in the past, and no tick holds a reading from the future. */
  ghost predicate Timely(y: State) {
    && y.id in y.db.devices
    && (forall f :: Fam(y, f).confirmedAt <= y.now)
    && (forall r <- y.inFlight :: r.at <= y.now && forall f :: FamilyOf(r.row, f).confirmedAt <= r.at)
  }

  ghost predicate StaleClearings(y: State, window: nat) {
    forall i :: 0 <= i < |y.clearings| ==> y.clearings[i].at >= y.clearings[i].confirmedAt + window
  }

  ghost predicate NoRepeat(notices: seq<Notice>) {
    forall i, j :: 0 <= i < j < |notices| ==> notices[i] != notices[j]
  }

  /** While a family is held, its level has reached every rung warned at its instant. */
  ghost predicate LevelCovers(y: State)
    requires y.id in y.db.devices
  {
    forall i :: 0 <= i < |y.notices| ==>
      var n := y.notices[i];
      && n.confirmedAt < y.now && n.confirmedAt <= Fam(y, n.family).confirmedAt
      && (Fam(y, n.family).Held() && n.confirmedAt == Fam(y, n.family).confirmedAt ==> n.rung <= Fam(y, n.family).warnLevel)
  }

  ghost predicate Start(y: State) {
    Timely(y) && y.inFlight == [] && y.notices == [] && y.clearings == []
  }

  lemma ContactEffect(y: State, report: Addrs, f: FamilyName)
    requires y.id in y.db.devices
    ensures var z := y.(db := Devices.CheckIn(y.db, y.id, report, y.now));
      && z.id in z.db.devices
      && (Fam(y, f).Held() ==> Fam(z, f).Held())
      && (Fam(z, f) == Fam(y, f) || (Fam(z, f).confirmedAt == y.now && Fam(z, f).Held()))
  {
  }

  lemma StepKeepsTimely(y: State, step: Step, window: nat)
    requires Timely(y)
    ensures Timely(Next(y, step, window))
  {
    match step
    case CheckIn(report) =>
      ContactEffect(y, report, V4);
      ContactEffect(y, report, V6);
    case Begin =>
      var z := Next(y, step, window);
      forall r <- z.inFlight ensures r.at <= z.now && forall f :: FamilyOf(r.row, f).confirmedAt <= r.at {
        if r !in y.inFlight { assert forall f :: FamilyOf(r.row, f) == Fam(y, f); }
      }
    case End(i) =>
      assert forall f :: Fam(Next(y, step, window), f) == Fam(y, f);
    case Wait(_) =>
      assert forall f :: Fam(Next(y, step, window), f) == Fam(y, f);
    case _ => PinnedWritesKeepInstants(y, step, window);
  }

  /** The sweep's writes move no confirmation instant and set no address. */
  lemma PinnedWritesKeepInstants(y: State, step: Step, window: nat)
    requires y.id in y.db.devices && (step.Expire? || step.Advance?)
    ensures var z := Next(y, step, window);
      && z == y.(db := z.db, notices := z.notices, clearings := z.clearings) && z.id in z.db.devices
      && forall f :: Fam(z, f).confirmedAt == Fam(y, f).confirmedAt && (Fam(z, f).Held() ==> Fam(y, f).Held())
  {
  }

  lemma StepKeepsClearings(y: State, step: Step, window: nat)
    requires Timely(y) && StaleClearings(y, window)
    ensures StaleClearings(Next(y, step, window), window)
  {
  }

  /** What an advance that happens tells the user. */
  function Warning(r: Read, f: FamilyName, window: nat): Notice {
    var fam := FamilyOf(r.row, f);
    Notice(f, fam.confirmedAt, DueRung(window, r.at - fam.confirmedAt))
  }

  lemma AdvanceKeepsLevels(y: State, r: Read, f: FamilyName, window: nat)
    requires Timely(y) && LevelCovers(y) && window >= SECONDS_PER_DAY && r.at <= y.now
    ensures LevelCovers(StepAdvance(y, r, f, window))
    ensures AdvanceHappens(y, r, f, window) && Fam(y, f).Held() ==> Warning(r, f, window) !in y.notices
  {
    var z := StepAdvance(y, r, f, window);
    if AdvanceHappens(y, r, f, window) {
      var c := FamilyOf(r.row, f).confirmedAt;
      RungsAreInsideWindow(window, r.at - c);
      assert c == Fam(y, f).confirmedAt;
      assert forall g :: g != f ==> Fam(z, g) == Fam(y, g);
      assert Fam(z, f) == Fam(y, f).(warnLevel := DueRung(window, r.at - c));
    }
  }

  predicate Lands(y: State, step: Step, window: nat) {
    step.Advance? && step.read < |y.inFlight| && AdvanceHappens(y, y.inFlight[step.read], step.family, window)
  }

  /** Whether a step is an advance that lands on a family still holding its address. */
  predicate LandsOnHeld(y: State, step: Step, window: nat)
    requires y.id in y.db.devices
  {
    Lands(y, step, window) ==> Fam(y, step.family).Held()
  }

  /** An advance that lands on a cleared address says something new. */
  predicate LandsOnNew(y: State, step: Step, window: nat)
    requires y.id in y.db.devices
  {
    Lands(y, step, window) && !Fam(y, step.family).Held() ==> Warning(y.inFlight[step.read], step.family, window) !in y.notices
  }

  lemma ExpireKeepsLevels(y: State, read: Read, window: nat)
    requires y.id in y.db.devices && LevelCovers(y)
    ensures LevelCovers(StepExpire(y, read, window)) && StepExpire(y, read, window).notices == y.notices
  {
    var z := StepExpire(y, read, window);
    assert forall f :: Fam(z, f).confirmedAt == Fam(y, f).confirmedAt && (Fam(z, f).Held() ==> Fam(z, f) == Fam(y, f));
  }

  lemma StepKeepsLevels(y: State, step: Step, window: nat)
    requires Timely(y) && LevelCovers(y) && window >= SECONDS_PER_DAY
    ensures Timely(Next(y, step, window)) && LevelCovers(Next(y, step, window))
    ensures NoRepeat(y.notices) && LandsOnNew(y, step, window) ==> NoRepeat(Next(y, step, window).notices)
  {
    StepKeepsTimely(y, step, window);
    match step
    case CheckIn(report) =>
      ContactEffect(y, report, V4);
      ContactEffect(y, report, V6);
    case Expire(i) =>
      if i < |y.inFlight| { ExpireKeepsLevels(y, y.inFlight[i], window); }
    case Advance(i, f) => if i < |y.inFlight| { AdvanceKeepsLevels(y, y.inFlight[i], f, window); }
    case _ =>
  }

  // -------------------------------------------------------------- main results

  ghost predicate AllLandOnHeld(y: State, steps: seq<Step>, window: nat)
    requires y.id in y.db.devices
  {
    forall k :: 0 <= k < |steps| ==> LandsOnHeld(Run(y, steps[..k], window), steps[k], window)
  }

  lemma {:induction false} RunKeepsTimely(y: State, steps: seq<Step>, window: nat)
    requires Start(y)
    ensures Timely(Run(y, steps, window)) && StaleClearings(Run(y, steps, window), window)
  {
    if steps != [] {
      RunKeepsTimely(y, steps[..|steps| - 1], window);
      StepKeepsTimely(Run(y, steps[..|steps| - 1], window), steps[|steps| - 1], window);
      StepKeepsClearings(Run(y, steps[..|steps| - 1], window), steps[|steps| - 1], window);
    }
  }

  /** However ticks and check-ins overlap, an address is cleared only a full window
      after the client last asserted it. */
  lemma OnlyStaleAddressesAreCleared(y: State, steps: seq<Step>, window: nat, i: nat)
    requires Start(y) && i < |Run(y, steps, window).clearings|
    ensures var c := Run(y, steps, window).clearings[i]; c.at >= c.confirmedAt + window
  {
    RunKeepsTimely(y, steps, window);
  }

  lemma {:induction false} RunKeepsLevels(y: State, steps: seq<Step>, window: nat)
    requires Start(y) && window >= SECONDS_PER_DAY
    ensures Timely(Run(y, steps, window)) && LevelCovers(Run(y, steps, window))
  {
    if steps != [] {
      RunKeepsLevels(y, steps[..|steps| - 1], window);
      StepKeepsLevels(Run(y, steps[..|steps| - 1], window), steps[|steps| - 1], window);
    }
  }

  /** Every step of a run that lands on a cleared address says something new. */
  ghost predicate AllLandOnNew(y: State, steps: seq<Step>, window: nat)
    requires y.id in y.db.devices
  {
    steps != [] ==>
      var init := steps[..|steps| - 1];
      AllLandOnNew(y, init, window) && LandsOnNew(Run(y, init, window), steps[|steps| - 1], window)
  }

  /** A warning sent stays sent. */
  lemma StepKeepsNotices(y: State, step: Step, window: nat)
    requires y.id in y.db.devices
    ensures y.notices <= Next(y, step, window).notices
    ensures Lands(y, step, window) ==>
              Next(y, step, window).notices == y.notices + [Warning(y.inFlight[step.read], step.family, window)]
  {
  }

  lemma StepRepeatsIff(y: State, step: Step, window: nat)
    requires Timely(y) && LevelCovers(y) && window >= SECONDS_PER_DAY
    ensures NoRepeat(Next(y, step, window).notices) <==> NoRepeat(y.notices) && LandsOnNew(y, step, window)
  {
    StepKeepsLevels(y, step, window);
    StepKeepsNotices(y, step, window);
    RepeatsStay(y.notices, Next(y, step, window).notices);
    if !LandsOnNew(y, step, window) {
      RepeatedAtEnd(y.notices, Warning(y.inFlight[step.read], step.family, window));
    }
  }

  /** Exactly when overlapping ticks repeat a rung for one instant: when an advance lands
      on a family that was cleared since, and its warning was already sent. The level
      covers whatever lands on a held one. */
  lemma {:induction false} OverlapRepeatsIff(y: State, steps: seq<Step>, window: nat)
    requires Start(y) && window >= SECONDS_PER_DAY
    ensures NoRepeat(Run(y, steps, window).notices) <==> AllLandOnNew(y, steps, window)
  {
    if steps != [] {
      var init, step := steps[..|steps| - 1], steps[|steps| - 1];
      OverlapRepeatsIff(y, init, window);
      RunKeepsLevels(y, init, window);
      StepRepeatsIff(Run(y, init, window), step, window);
    }
  }

  lemma RepeatsStay(a: seq<Notice>, b: seq<Notice>)
    requires a <= b
    ensures NoRepeat(b) ==> NoRepeat(a)
  {
  }

  lemma RepeatedAtEnd(a: seq<Notice>, n: Notice)
    requires n in a
    ensures !NoRepeat(a + [n])
  {
    var i :| 0 <= i < |a| && a[i] == n;
    assert (a + [n])[i] == (a + [n])[|a|];
  }

  lemma {:induction false} HeldIsNew(y: State, steps: seq<Step>, window: nat)
    requires y.id in y.db.devices && AllLandOnHeld(y, steps, window)
    ensures AllLandOnNew(y, steps, window)
  {
    if steps != [] {
      var init := steps[..|steps| - 1];
      assert forall k :: 0 <= k < |init| ==> init[..k] == steps[..k] && init[k] == steps[k];
      HeldIsNew(y, init, window);
      assert LandsOnHeld(Run(y, steps[..|init|], window), steps[|init|], window);
    }
  }

  /** In particular no rung repeats while every landing advance finds the address held. */
  lemma HeldAdvancesNeverRepeat(y: State, steps: seq<Step>, window: nat)
    requires Start(y) && window >= SECONDS_PER_DAY && AllLandOnHeld(y, steps, window)
    ensures NoRepeat(Run(y, steps, window).notices)
  {
    HeldIsNew(y, steps, window);
    OverlapRepeatsIff(y, steps, window);
  }

  /** The pruner runs its ticks one after another: a tick begins only when no other is
      in flight. Check-ins still happen at any point. */
  ghost predicate OneTickAtATime(y: State, steps: seq<Step>, window: nat)
    requires y.id in y.db.devices
  {
    forall k :: 0 <= k < |steps| && steps[k].Begin? ==> Run(y, steps[..k], window).inFlight == []
  }

  /** While one tick that decided to warn is in flight, what it saw held stays held. */
  ghost predicate SeenIsHeld(y: State, window: nat)
    requires y.id in y.db.devices
  {
    && |y.inFlight| <= 1
    && (|y.inFlight| == 1 && !AnyDue(y.inFlight[0], window) ==>
          forall f :: FamilyOf(y.inFlight[0].row, f).Held() ==> Fam(y, f).Held())
  }

  lemma {:induction false} SequentialTicksSeeHeld(y: State, steps: seq<Step>, window: nat)
    requires Start(y) && OneTickAtATime(y, steps, window)
    ensures SeenIsHeld(Run(y, steps, window), window)
  {
    if steps != [] {
      var init, step := steps[..|steps| - 1], steps[|steps| - 1];
      assert forall k :: 0 <= k < |init| ==> init[..k] == steps[..k];
      SequentialTicksSeeHeld(y, init, window);
      var z := Run(y, init, window);
      if step.CheckIn? {
        ContactEffect(z, step.report, V4);
        ContactEffect(z, step.report, V6);
      }
    }
  }

  lemma PrefixIsSequential(y: State, steps: seq<Step>, k: nat, window: nat)
    requires y.id in y.db.devices && k <= |steps| && OneTickAtATime(y, steps, window)
    ensures OneTickAtATime(y, steps[..k], window)
  {
    assert forall j :: 0 <= j < k ==> steps[..k][..j] == steps[..j];
  }

  lemma SeenHeldLands(y: State, step: Step, window: nat)
    requires y.id in y.db.devices && SeenIsHeld(y, window)
    ensures LandsOnHeld(y, step, window)
  {
  }

  /** Each rung is warned at most once per family per confirmation instant, for ticks
      that run one after another, whenever the device checks in. */
  lemma RungsWarnOnce(y: State, steps: seq<Step>, window: nat)
    requires Start(y) && window >= SECONDS_PER_DAY && OneTickAtATime(y, steps, window)
    ensures NoRepeat(Run(y, steps, window).notices)
  {
    forall k | 0 <= k < |steps| ensures LandsOnHeld(Run(y, steps[..k], window), steps[k], window) {
      PrefixIsSequential(y, steps, k, window);
      SequentialTicksSeeHeld(y, steps[..k], window);
      SeenHeldLands(Run(y, steps[..k], window), steps[k], window);
    }
    HeldAdvancesNeverRepeat(y, steps, window);
  }

  // ------------------------------------------- why the ticks must not overlap

  /** A device that last asserted its one address at instant 0. */
  function Silent(address: Address, level: nat): Device {
    Device("u", false, Family(address, 0, level), Family("", 0, 0))
  }

  function Table(d: Device): Db {
    Db(map["u" := false], map["d" := d], map[], 0, 0)
  }

  /** Two ticks read the device at level 0; one warns rung 2. */
  lemma FirstTickWarns(y: State, a: Address)
    requires a != "" && y == State(Table(Silent(a, 0)), "d", 60000, [], [], [])
    ensures Start(y)
    ensures var r := Read(60000, Silent(a, 0));
      Next(Next(Next(y, Begin, SECONDS_PER_DAY), Begin, SECONDS_PER_DAY), Advance(0, V4), SECONDS_PER_DAY)
        == State(Table(Silent(a, 2)), "d", 60000, [r, r], [Notice(V4, 0, 2)], [])
  {
    assert Fam(y, V4).confirmedAt == 0 && Fam(y, V6).confirmedAt == 0;
    assert DueRung(SECONDS_PER_DAY, 60000) == 2;
    var z := Next(Next(y, Begin, SECONDS_PER_DAY), Begin, SECONDS_PER_DAY);
    assert AdvanceHappens(z, z.inFlight[0], V4, SECONDS_PER_DAY);
    var after := Next(z, Advance(0, V4), SECONDS_PER_DAY);
    assert after.db.devices == map["d" := Silent(a, 2)];
  }

  /** A third tick clears the address, and its level, a window after the assertion. */
  lemma ThirdTickClears(y: State, a: Address)
    requires a != "" && y.id == "d" && y.db == Table(Silent(a, 2)) && y.now == 60000 && |y.inFlight| == 2
    ensures var z := Next(Next(Next(y, Wait(26400), SECONDS_PER_DAY), Begin, SECONDS_PER_DAY), Expire(2), SECONDS_PER_DAY);
      && z.db.devices == map["d" := Silent("", 0)] && z.id == "d" && z.notices == y.notices
      && |z.inFlight| == 3 && z.inFlight[1] == y.inFlight[1]
  {
    var z := Next(Next(y, Wait(26400), SECONDS_PER_DAY), Begin, SECONDS_PER_DAY);
    assert Due(z.inFlight[2].row.v4, SECONDS_PER_DAY, z.inFlight[2].at);
    assert ExpiryApplies(z.db, "d", true, false, 0, 0);
  }

  /** Overlapping ticks can warn one rung twice: after the clearing above, the delayed
      tick that read level 0 still passes its pin. */
  lemma OverlappingTicksCanRepeat(y: State, a: Address)
    requires a != "" && y == State(Table(Silent(a, 0)), "d", 60000, [], [], [])
    ensures Start(y)
    ensures Run(y, [Begin, Begin, Advance(0, V4), Wait(26400), Begin, Expire(2), Advance(1, V4)], SECONDS_PER_DAY).notices
         == [Notice(V4, 0, 2), Notice(V4, 0, 2)]
  {
    var w := SECONDS_PER_DAY;
    FirstTickWarns(y, a);
    RunOfThree(y, Begin, Begin, Advance(0, V4), w);
    var one := Run(y, [Begin, Begin, Advance(0, V4)], w);
    ThirdTickClears(one, a);
    RunOfThree(one, Wait(26400), Begin, Expire(2), w);
    var two := Run(one, [Wait(26400), Begin, Expire(2)], w);
    RunConcat(y, [Begin, Begin, Advance(0, V4)], [Wait(26400), Begin, Expire(2)], w);
    var steps := [Begin, Begin, Advance(0, V4), Wait(26400), Begin, Expire(2), Advance(1, V4)];
    assert steps[..6] == [Begin, Begin, Advance(0, V4)] + [Wait(26400), Begin, Expire(2)];
    assert DueRung(w, 60000) == 2;
    assert AdvanceHappens(two, two.inFlight[1], V4, w);
  }

  lemma {:induction false} RunConcat(y: State, first: seq<Step>, second: seq<Step>, window: nat)
    requires y.id in y.db.devices
    ensures Run(y, first + second, window) == Run(Run(y, first, window), second, window)
  {
    if second == [] {
      assert first + second == first;
    } else {
      assert (first + second)[..|first + second| - 1] == first + second[..|second| - 1];
      RunConcat(y, first, second[..|second| - 1], window);
    }
  }

  lemma RunOfThree(y: State, a: Step, b: Step, c: Step, window: nat)
    requires y.id in y.db.devices
    ensures Run(y, [a, b, c], window) == Next(Next(Next(y, a, window), b, window), c, window)
  {
    assert [a, b, c][..2] == [a, b] && [a, b][..1] == [a] && [a][..0] == [];
    assert Run(y, [], window) == y;
    assert Run(y, [a], window) == Next(y, a, window);
    assert Run(y, [a, b], window) == Next(Run(y, [a], window), b, window);
  }
}
