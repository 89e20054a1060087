/**
 Registration grants: the token table of internal/store/account_recovery.go, and
 the race between issuing a link and changing the account's address
 (internal/server/service/grants.go, applyChanged in email_change.go).
 */
module GrantTable {
  import opened Options
  import opened Sizes

  type UserId = string
  /** Stands for the token hash, the primary key. */
  type Token = string

  datatype Reason = Invite | Recovery

  datatype Grant = Grant(user: UserId, reason: Reason, expiresAt: int, usedAt: Option<int>)

  type Grants = map<Token, Grant>

  predicate Unused(rows: Grants, t: Token) {
    t in rows && rows[t].usedAt.None?
  }

  function DeleteUnused(rows: Grants, u: UserId): Grants {
    map t | t in rows && !(rows[t].user == u && rows[t].usedAt.None?) :: rows[t]
  }

  predicate Consumable(rows: Grants, t: Token, now: int) {
    Unused(rows, t) && rows[t].expiresAt > now
  }

  function Consumed(rows: Grants, t: Token, now: int): Grants {
    if Consumable(rows, t, now) then rows[t := rows[t].(usedAt := Some(now))] else rows
  }

  function Pruned(rows: Grants, now: int): Grants {
    map t | t in rows && rows[t].expiresAt >= now :: rows[t]
  }

  class AccountRecovery {
    var rows: Grants

    constructor ()
      ensures rows == map[]
    {
      rows := map[];
    }

    /** False on a primary-key conflict. */
    method Create(t: Token, g: Grant) returns (ok: bool)
      modifies this
      ensures ok == (t !in old(rows))
      ensures rows == if ok then old(rows)[t := g] else old(rows)
    {
      ok := t !in rows;
      if ok { rows := rows[t := g]; }
    }

    /** The single-use gate; None stands for ErrNotFound. */
    method Consume(t: Token, now: int) returns (r: Option<Grant>)
      modifies this
      ensures rows == Consumed(old(rows), t, now)
      ensures r == if Consumable(old(rows), t, now) then Some(rows[t]) else None
    {
      if t in rows && rows[t].usedAt.None? && rows[t].expiresAt > now {
        rows := rows[t := rows[t].(usedAt := Some(now))];
        return Some(rows[t]);
      }
      return None;
    }

    method PruneExpired(now: int) returns (n: nat)
      modifies this
      ensures rows == Pruned(old(rows), now) && n == |old(rows)| - |rows|
    {
      var gone := set t | t in rows && rows[t].expiresAt < now;
      n := |gone|;
      RemovedSize(rows, gone);
      rows := rows - gone;
    }

    method DeleteUnusedByUser(u: UserId) returns (n: nat)
      modifies this
      ensures rows == DeleteUnused(old(rows), u) && n == |old(rows)| - |rows|
    {
      var gone := set t | t in rows && rows[t].user == u && rows[t].usedAt.None?;
      n := |gone|;
      RemovedSize(rows, gone);
      rows := rows - gone;
    }
  }
}

/**
 Every interleaving of issuing, changing, redeeming and pruning. `Issue` stands for
 ReissueInvite and IssueRecovery, `Early` for the paths that mail the address they
 read before the mint (IssueInvite and self-service recovery), `Change` for an
 address change past its checks. A step that is not enabled changes nothing.
 */
module Grants {
  import opened Options
  import opened GrantTable

  type Address = string
  type OpId = nat

  /** `Minted` still holds the lock until Unlock; `Read` has the recipient. */
  datatype Phase = Waiting | Locked | Cleared | Minted(token: Token) | Read(token: Token, to: Address)

  datatype Op =
    | Issue(user: UserId, reason: Reason, phase: Phase)
    | Early(user: UserId, reason: Reason, to: Address, token: Option<Token>)
    | Change(user: UserId, to: Address, saved: bool)

  datatype Mail = Mail(token: Token, to: Address)

  /** `minted` is every token ever issued, `tracked` those issued by `Issue`, `mailed`
      and `redeemed` what left the system. */
  datatype System = System(
    address: map<UserId, Address>, disabled: set<UserId>, rows: Grants, lock: Option<OpId>, ops: map<OpId, Op>,
    minted: set<Token>, tracked: set<Token>, mailed: set<Mail>, redeemed: seq<Token>)

  datatype Step =
    | StartIssue(o: OpId, user: UserId, reason: Reason)
    | Lock(o: OpId)
    | Clear(o: OpId)
    | Mint(o: OpId, token: Token, expiresAt: int)
    | Unlock(o: OpId)
    | ReadRecipient(o: OpId)
    | SendLink(o: OpId)
    | StartEarly(o: OpId, user: UserId, reason: Reason)
    | EarlyMint(o: OpId, token: Token, expiresAt: int)
    | EarlySend(o: OpId)
    | StartChange(o: OpId, user: UserId, to: Address)
    | Save(o: OpId)
    | ClearAfterSave(o: OpId)
    | Fail(o: OpId)
    | Redeem(token: Token, now: int)
    | Prune(now: int)
    | SetDisabled(user: UserId, isDisabled: bool)

  // --------------------------------------------------------------------- steps

  /** Rows from before the run belong to no tracked operation. */
  function Init(address: map<UserId, Address>, disabled: set<UserId>, rows: Grants): System {
    System(address, disabled, rows, None, map[], rows.Keys, {}, {}, [])
  }

  predicate Issuing(y: System, o: OpId, p: Phase) {
    o in y.ops && y.ops[o].Issue? && y.ops[o].phase == p
  }

  function To(y: System, o: OpId, p: Phase): System
    requires o in y.ops && y.ops[o].Issue?
  {
    y.(ops := y.ops[o := y.ops[o].(phase := p)])
  }

  function Over(y: System, o: OpId): System {
    y.(ops := y.ops - {o}, lock := if y.lock == Some(o) then None else y.lock)
  }

  function StepMint(y: System, o: OpId, t: Token, expiresAt: int): System {
    if Issuing(y, o, Cleared) && t !in y.minted then
      To(y, o, Minted(t)).(rows := y.rows[t := Grant(y.ops[o].user, y.ops[o].reason, expiresAt, None)],
                           minted := y.minted + {t}, tracked := y.tracked + {t})
    else y
  }

  /** recipientAfterMint, outside the lock; a disabled account is not mailed. */
  function StepReadRecipient(y: System, o: OpId): System {
    if o in y.ops && y.ops[o].Issue? && y.ops[o].phase.Minted? && y.lock != Some(o) && y.ops[o].user in y.address then
      if y.ops[o].user in y.disabled then Over(y, o)
      else To(y, o, Read(y.ops[o].phase.token, y.address[y.ops[o].user]))
    else y
  }

  function StepEarlyMint(y: System, o: OpId, t: Token, expiresAt: int): System {
    if o in y.ops && y.ops[o].Early? && y.ops[o].token.None? && t !in y.minted then
      y.(rows := y.rows[t := Grant(y.ops[o].user, y.ops[o].reason, expiresAt, None)],
         minted := y.minted + {t}, ops := y.ops[o := y.ops[o].(token := Some(t))])
    else y
  }

  function Next(y: System, step: Step): System {
    match step
    case StartIssue(o, u, reason) =>
      if o !in y.ops && u in y.address then y.(ops := y.ops[o := Issue(u, reason, Waiting)]) else y
    case Lock(o) => if Issuing(y, o, Waiting) && y.lock.None? then To(y, o, Locked).(lock := Some(o)) else y
    case Clear(o) =>
      if Issuing(y, o, Locked) then To(y, o, Cleared).(rows := DeleteUnused(y.rows, y.ops[o].user)) else y
    case Mint(o, t, expiresAt) => StepMint(y, o, t, expiresAt)
    case Unlock(o) =>
      if y.lock == Some(o) && o in y.ops && y.ops[o].Issue? && y.ops[o].phase.Minted? then y.(lock := None) else y
    case ReadRecipient(o) => StepReadRecipient(y, o)
    case SendLink(o) =>
      if o in y.ops && y.ops[o].Issue? && y.ops[o].phase.Read?
      then Over(y, o).(mailed := y.mailed + {Mail(y.ops[o].phase.token, y.ops[o].phase.to)}) else y
    case StartEarly(o, u, reason) =>
      if o !in y.ops && u in y.address then y.(ops := y.ops[o := Early(u, reason, y.address[u], None)]) else y
    case EarlyMint(o, t, expiresAt) => StepEarlyMint(y, o, t, expiresAt)
    case EarlySend(o) =>
      if o in y.ops && y.ops[o].Early? && y.ops[o].token.Some?
      then Over(y, o).(mailed := y.mailed + {Mail(y.ops[o].token.value, y.ops[o].to)}) else y
    case StartChange(o, u, to) =>
      if o !in y.ops && u in y.address then y.(ops := y.ops[o := Change(u, to, false)]) else y
    case Save(o) =>
      if o in y.ops && y.ops[o].Change? && !y.ops[o].saved
      then y.(address := y.address[y.ops[o].user := y.ops[o].to], ops := y.ops[o := y.ops[o].(saved := true)]) else y
    case ClearAfterSave(o) =>
      if o in y.ops && y.ops[o].Change? && y.ops[o].saved
      then Over(y, o).(rows := DeleteUnused(y.rows, y.ops[o].user)) else y
    case Fail(o) => if o in y.ops && !(y.ops[o].Change? && y.ops[o].saved) then Over(y, o) else y
    case Redeem(t, now) =>
      if Consumable(y.rows, t, now) then y.(rows := Consumed(y.rows, t, now), redeemed := y.redeemed + [t]) else y
    case Prune(now) => y.(rows := Pruned(y.rows, now))
    case SetDisabled(u, isDisabled) => y.(disabled := if isDisabled then y.disabled + {u} else y.disabled - {u})
  }

  function Run(y: System, steps: seq<Step>): System {
    if steps == [] then y else Next(Run(y, steps[..|steps| - 1]), steps[|steps| - 1])
  }

  // ---------------------------------------------------------------- invariants

  /** A change of u's address is between its save and its delete. */
  ghost predicate Changing(y: System, u: UserId) {
    exists o :: o in y.ops && y.ops[o].Change? && y.ops[o].saved && y.ops[o].user == u
  }

  predicate Live(y: System, t: Token) {
    t in y.tracked && Unused(y.rows, t)
  }

  ghost predicate KnownTokens(y: System) {
    && y.rows.Keys <= y.minted && y.tracked <= y.minted
    && (forall m <- y.mailed :: m.token in y.minted)
    && (forall t <- y.rows :: t in y.tracked ==> y.rows[t].user in y.address)
  }

  /** Who holds the lock, and which tokens the operations carry. */
  ghost predicate KnownOps(y: System) {
    && (forall o <- y.ops :: y.ops[o].user in y.address)
    && (forall o <- y.ops :: y.ops[o].Issue? && y.ops[o].phase in {Locked, Cleared} ==> y.lock == Some(o))
    && (forall o <- y.ops :: y.ops[o].Issue? && (y.ops[o].phase.Minted? || y.ops[o].phase.Read?) ==>
          var t := y.ops[o].phase.token; t in y.tracked && (t in y.rows ==> y.rows[t].user == y.ops[o].user))
    && (forall o <- y.ops :: y.ops[o].Early? && y.ops[o].token.Some? ==>
          y.ops[o].token.value in y.minted && y.ops[o].token.value !in y.tracked)
  }

  ghost predicate Orderly(y: System) {
    KnownTokens(y) && KnownOps(y)
  }

  /** At most one live tracked link per account, none while one is being replaced. */
  ghost predicate OneLive(y: System) {
    && (forall s, t :: Live(y, s) && Live(y, t) && y.rows[s].user == y.rows[t].user ==> s == t)
    && (forall o, t :: Issuing(y, o, Cleared) && Live(y, t) ==> y.rows[t].user != y.ops[o].user)
  }

  /** The token went to this address, or is about to. */
  ghost predicate Sent(y: System, t: Token, to: Address) {
    Mail(t, to) in y.mailed || exists o :: Issuing(y, o, Read(t, to))
  }

  ghost predicate Addressed(y: System) {
    forall t, to :: Live(y, t) && Sent(y, t, to) ==> Speaks(y, y.rows[t].user, to)
  }

  ghost predicate Speaks(y: System, u: UserId, to: Address) {
    Changing(y, u) || (u in y.address && y.address[u] == to)
  }

  ghost predicate UsedOnce(y: System) {
    && (forall i, j :: 0 <= i < j < |y.redeemed| ==> y.redeemed[i] != y.redeemed[j])
    && (forall t <- y.redeemed :: t in y.minted && !Unused(y.rows, t))
  }

  ghost predicate Inv(y: System) {
    Orderly(y) && OneLive(y) && Addressed(y) && UsedOnce(y)
  }

  lemma KnownTokensStep(y: System, step: Step)
    requires Orderly(y)
    ensures KnownTokens(Next(y, step))
  {
  }

  predicate IsIssueStep(step: Step) {
    step.StartIssue? || step.Lock? || step.Clear? || step.Mint? || step.Unlock? || step.ReadRecipient? || step.SendLink?
  }

  lemma KnownOpsIssueStep(y: System, step: Step)
    requires Orderly(y) && IsIssueStep(step)
    ensures KnownOps(Next(y, step))
  {
  }

  lemma KnownOpsOtherStep(y: System, step: Step)
    requires Orderly(y) && !IsIssueStep(step)
    ensures KnownOps(Next(y, step))
  {
  }

  /** The live links of z were live in y, for the same accounts. */
  ghost predicate NoNewLive(y: System, z: System) {
    forall t :: Live(z, t) ==> Live(y, t) && z.rows[t].user == y.rows[t].user
  }

  lemma OneLiveFrame(y: System, z: System)
    requires OneLive(y) && NoNewLive(y, z)
    requires forall o :: Issuing(z, o, Cleared) ==> Issuing(y, o, Cleared) && z.ops[o].user == y.ops[o].user
    ensures OneLive(z)
  {
  }

  lemma MintKeepsOneLive(y: System, o: OpId, t: Token, expiresAt: int)
    requires Orderly(y) && OneLive(y)
    ensures OneLive(StepMint(y, o, t, expiresAt))
  {
    var z := StepMint(y, o, t, expiresAt);
    if z != y {
      assert forall s :: Live(z, s) && s != t ==> Live(y, s) && z.rows[s] == y.rows[s];
      assert forall p :: !Issuing(z, p, Cleared);
    }
  }

  lemma NoNewLiveStep(y: System, step: Step)
    requires Orderly(y) && !step.Mint?
    ensures NoNewLive(y, Next(y, step))
  {
  }

  lemma OneLiveStep(y: System, step: Step)
    requires Orderly(y) && OneLive(y)
    ensures OneLive(Next(y, step))
  {
    if step.Mint? {
      MintKeepsOneLive(y, step.o, step.token, step.expiresAt);
    } else {
      NoNewLiveStep(y, step);
      if !step.Clear? { OneLiveFrame(y, Next(y, step)); }
    }
  }

  /** Unless a step saves an address or ends a change, an address that spoke for an
      account still does. */
  lemma StillSpeaks(y: System, step: Step, u: UserId, to: Address)
    requires Speaks(y, u, to)
    requires step.Save? || step.ClearAfterSave? ==> step.o !in y.ops || y.ops[step.o].user != u || Next(y, step) == y
    ensures Speaks(Next(y, step), u, to)
  {
    var z := Next(y, step);
    if Changing(y, u) {
      var o :| o in y.ops && y.ops[o].Change? && y.ops[o].saved && y.ops[o].user == u;
      assert o in z.ops && z.ops[o] == y.ops[o];
    }
  }

  lemma SentStays(y: System, step: Step, t: Token, to: Address)
    requires Orderly(y) && Live(Next(y, step), t) && Sent(Next(y, step), t, to) && !step.ReadRecipient?
    ensures Live(y, t) && Sent(y, t, to) && Next(y, step).rows[t].user == y.rows[t].user
  {
    var z := Next(y, step);
    if exists o :: Issuing(z, o, Read(t, to)) {
      var o :| Issuing(z, o, Read(t, to));
      assert Issuing(y, o, Read(t, to));
    } else if step.SendLink? && Mail(t, to) !in y.mailed {
      assert Issuing(y, step.o, Read(t, to));
    }
  }

  lemma ReadKeepsAddressed(y: System, o: OpId)
    requires Orderly(y) && Addressed(y)
    ensures Addressed(StepReadRecipient(y, o))
  {
    var z := StepReadRecipient(y, o);
    forall t, to | Live(z, t) && Sent(z, t, to) ensures Speaks(z, z.rows[t].user, to) {
      if Mail(t, to) !in z.mailed {
        var p :| Issuing(z, p, Read(t, to));
        assert p == o || Issuing(y, p, Read(t, to));
      }
      if Sent(y, t, to) { StillSpeaks(y, ReadRecipient(o), y.rows[t].user, to); }
    }
  }

  lemma AddressedStep(y: System, step: Step)
    requires Orderly(y) && Addressed(y)
    ensures Addressed(Next(y, step))
  {
    if step.ReadRecipient? {
      ReadKeepsAddressed(y, step.o);
    } else {
      var z := Next(y, step);
      forall t, to | Live(z, t) && Sent(z, t, to) ensures Speaks(z, z.rows[t].user, to) {
        SentStays(y, step, t, to);
        var u := y.rows[t].user;
        if step.Save? && z != y && y.ops[step.o].user == u {
          assert z.ops[step.o].saved;
        } else {
          StillSpeaks(y, step, u, to);
        }
      }
    }
  }

  lemma UsedOnceStep(y: System, step: Step)
    requires Orderly(y) && UsedOnce(y)
    ensures UsedOnce(Next(y, step))
  {
  }

  lemma {:induction false} RunKeepsInv(address: map<UserId, Address>, disabled: set<UserId>, rows: Grants, steps: seq<Step>)
    ensures Inv(Run(Init(address, disabled, rows), steps))
  {
    if steps != [] {
      var y := Run(Init(address, disabled, rows), steps[..|steps| - 1]);
      RunKeepsInv(address, disabled, rows, steps[..|steps| - 1]);
      KnownTokensStep(y, steps[|steps| - 1]);
      if IsIssueStep(steps[|steps| - 1]) { KnownOpsIssueStep(y, steps[|steps| - 1]); }
      else { KnownOpsOtherStep(y, steps[|steps| - 1]); }
      OneLiveStep(y, steps[|steps| - 1]);
      AddressedStep(y, steps[|steps| - 1]);
      UsedOnceStep(y, steps[|steps| - 1]);
    }
  }

  // -------------------------------------------------------------- main results

  /** A live link never sits at a stale address. Over every interleaving, while no
      change of the account is between its save and its delete, every unused link the
      two replacing paths mailed went to the account's current address, and there is
      at most one such link. */
  lemma LiveLinksAreCurrent(address: map<UserId, Address>, disabled: set<UserId>, rows: Grants, steps: seq<Step>, m: Mail, other: Token)
    ensures var y := Run(Init(address, disabled, rows), steps);
      Live(y, m.token) ==>
        var u := y.rows[m.token].user;
        && (m in y.mailed && !Changing(y, u) ==> u in y.address && m.to == y.address[u])
        && (Live(y, other) && y.rows[other].user == u ==> other == m.token)
  {
    RunKeepsInv(address, disabled, rows, steps);
    var y := Run(Init(address, disabled, rows), steps);
    if m in y.mailed { assert Sent(y, m.token, m.to); }
  }

  /** No grant is redeemed twice, whoever issued it. */
  lemma RedeemedAtMostOnce(address: map<UserId, Address>, disabled: set<UserId>, rows: Grants, steps: seq<Step>, i: nat, j: nat)
    ensures var y := Run(Init(address, disabled, rows), steps);
      i < j < |y.redeemed| ==> y.redeemed[i] != y.redeemed[j]
  {
    RunKeepsInv(address, disabled, rows, steps);
  }

  // ------------------------------------------------------------------- limits

  /** A live link is at an address that no longer speaks for the account. */
  ghost predicate Stale(y: System, m: Mail) {
    && m in y.mailed && Unused(y.rows, m.token) && y.rows[m.token].user in y.address
    && m.to != y.address[y.rows[m.token].user]
  }

  lemma {:induction false} RunConcat(y: System, first: seq<Step>, second: seq<Step>)
    ensures Run(y, first + second) == Run(Run(y, first), second)
  {
    if second == [] {
      assert first + second == first;
    } else {
      assert (first + second)[..|first + second| - 1] == first + second[..|second| - 1];
      RunConcat(y, first, second[..|second| - 1]);
    }
  }

  lemma RunOfThree(y: System, a: Step, b: Step, c: Step)
    ensures Run(y, [a, b, c]) == Next(Next(Next(y, a), b), c)
  {
    assert [a][..0] == [] && Run(y, []) == y;
    assert Run(y, [a]) == Next(Run(y, []), a);
    assert [a, b][..1] == [a];
    assert Run(y, [a, b]) == Next(Run(y, [a]), b);
    assert [a, b, c][..2] == [a, b];
    assert Run(y, [a, b, c]) == Next(Run(y, [a, b]), c);
  }

  /** The address is saved while an invitation holds the one it read. */
  lemma SavedDuringInvite(y: System)
    requires y == Init(map["u" := "old"], {}, map[])
    ensures Next(Next(Next(y, StartEarly(0, "u", Invite)), StartChange(1, "u", "new")), Save(1))
         == y.(address := map["u" := "new"], ops := map[0 := Early("u", Invite, "old", None), 1 := Change("u", "new", true)])
  {
  }

  lemma MintedAfterDelete(y: System)
    requires y == System(map["u" := "new"], {}, map[], None,
                         map[0 := Early("u", Invite, "old", None), 1 := Change("u", "new", true)], {}, {}, {}, [])
    ensures Next(Next(Next(y, ClearAfterSave(1)), EarlyMint(0, "t", 100)), EarlySend(0))
         == y.(rows := map["t" := Grant("u", Invite, 100, None)], ops := map[], minted := {"t"}, mailed := {Mail("t", "old")})
  {
    assert Next(y, ClearAfterSave(1)) == y.(ops := map[0 := Early("u", Invite, "old", None)]);
  }

  /** The token belongs to this account and only went to this address, and while its link
      works the address speaks for the account. */
  ghost predicate EarlyLink(y: System, u: UserId, t: Token, to: Address) {
    && t in y.minted && t !in y.tracked
    && (t in y.rows ==> y.rows[t].user == u)
    && (forall m <- y.mailed :: m.token == t ==> m.to == to)
    && (forall o <- y.ops :: y.ops[o].Early? && y.ops[o].token == Some(t) ==> y.ops[o].to == to)
    && IssueTokensTracked(y)
    && (Unused(y.rows, t) ==> Speaks(y, u, to))
  }

  ghost predicate IssueTokensTracked(y: System) {
    forall o <- y.ops :: y.ops[o].Issue? && (y.ops[o].phase.Minted? || y.ops[o].phase.Read?) ==> y.ops[o].phase.token in y.tracked
  }

  lemma IssueTokensStep(y: System, step: Step)
    requires IssueTokensTracked(y)
    ensures IssueTokensTracked(Next(y, step))
  {
  }

  lemma EarlyLinkStep(y: System, step: Step, u: UserId, t: Token, to: Address)
    requires EarlyLink(y, u, t, to)
    ensures EarlyLink(Next(y, step), u, t, to)
  {
    EarlyTokenStep(y, step, u, t, to);
    IssueTokensStep(y, step);
    var z := Next(y, step);
    if Unused(z.rows, t) {
      assert Unused(y.rows, t);
      if step.Save? && step.o in y.ops && y.ops[step.o].Change? && !y.ops[step.o].saved && y.ops[step.o].user == u {
        assert z.ops[step.o].saved;
      } else {
        StillSpeaks(y, step, u, to);
      }
    }
  }

  /** Where the token went and whose it is. */
  lemma EarlyTokenStep(y: System, step: Step, u: UserId, t: Token, to: Address)
    requires EarlyLink(y, u, t, to)
    ensures var z := Next(y, step);
      && t in z.minted && t !in z.tracked
      && (t in z.rows ==> t in y.rows && z.rows[t].user == u && (Unused(z.rows, t) ==> Unused(y.rows, t)))
      && (forall m <- z.mailed :: m.token == t ==> m.to == to)
      && (forall o <- z.ops :: z.ops[o].Early? && z.ops[o].token == Some(t) ==> z.ops[o].to == to)
  {
  }

  lemma {:induction false} EarlyLinkRun(y: System, steps: seq<Step>, u: UserId, t: Token, to: Address)
    requires EarlyLink(y, u, t, to)
    ensures EarlyLink(Run(y, steps), u, t, to)
  {
    if steps != [] {
      EarlyLinkRun(y, steps[..|steps| - 1], u, t, to);
      EarlyLinkStep(Run(y, steps[..|steps| - 1]), steps[|steps| - 1], u, t, to);
    }
  }

  /** While no change of the account is in flight, a working link with this token went to
      the account's current address. */
  ghost predicate AtCurrentAddress(y: System, t: Token, to: Address) {
    Mail(t, to) in y.mailed && Unused(y.rows, t) && !Changing(y, y.rows[t].user) ==>
      y.rows[t].user in y.address && y.address[y.rows[t].user] == to
  }

  lemma SentWhileStale(y: System, o: OpId, t: Token, expiresAt: int)
    requires o in y.ops && y.ops[o].Early? && y.ops[o].token.None? && t !in y.minted
    requires !Speaks(y, y.ops[o].user, y.ops[o].to)
    ensures !AtCurrentAddress(Run(StepEarlyMint(y, o, t, expiresAt), [EarlySend(o)]), t, y.ops[o].to)
  {
    var minted := StepEarlyMint(y, o, t, expiresAt);
    assert [EarlySend(o)][..0] == [] && Run(minted, []) == minted;
    var z := Next(minted, EarlySend(o));
    assert Run(minted, [EarlySend(o)]) == z;
  }

  /** Exactly when a path that read the recipient early may mint: every continuation of
      the mint keeps the link at the account's current address, if and only if at the
      mint the address read still speaks for the account, which a second read of the row
      in the statement that mints would find out. */
  lemma EarlyLinkStaysCurrentIff(y: System, o: OpId, t: Token, expiresAt: int)
    requires Orderly(y) && o in y.ops && y.ops[o].Early? && y.ops[o].token.None? && t !in y.minted
    ensures (forall steps, to :: AtCurrentAddress(Run(StepEarlyMint(y, o, t, expiresAt), steps), t, to))
       <==> Speaks(y, y.ops[o].user, y.ops[o].to)
  {
    var u, to := y.ops[o].user, y.ops[o].to;
    var minted := StepEarlyMint(y, o, t, expiresAt);
    if Speaks(y, u, to) {
      StillSpeaks(y, EarlyMint(o, t, expiresAt), u, to);
      MintedIsEarlyLink(y, o, t, expiresAt);
      forall steps, where: Address ensures AtCurrentAddress(Run(minted, steps), t, where) {
        EarlyLinkRun(minted, steps, u, t, to);
      }
    } else {
      SentWhileStale(y, o, t, expiresAt);
    }
  }

  lemma MintedIsEarlyLink(y: System, o: OpId, t: Token, expiresAt: int)
    requires Orderly(y) && o in y.ops && y.ops[o].Early? && y.ops[o].token.None? && t !in y.minted
    requires Speaks(StepEarlyMint(y, o, t, expiresAt), y.ops[o].user, y.ops[o].to)
    ensures EarlyLink(StepEarlyMint(y, o, t, expiresAt), y.ops[o].user, t, y.ops[o].to)
  {
  }

  /** Every reachable state is one such mint can start from. */
  lemma ReachableIsOrderly(address: map<UserId, Address>, disabled: set<UserId>, rows: Grants, steps: seq<Step>)
    ensures Orderly(Run(Init(address, disabled, rows), steps))
  {
    RunKeepsInv(address, disabled, rows, steps);
  }

  /** Why the recipient is read after the mint: a link of a path that reads it before
      can stay live at the old address with no change in flight. */
  lemma EarlyLinkCanGoStale()
    ensures var y := Run(Init(map["u" := "old"], {}, map[]),
                         [StartEarly(0, "u", Invite), StartChange(1, "u", "new"), Save(1),
                          ClearAfterSave(1), EarlyMint(0, "t", 100), EarlySend(0)]);
      Stale(y, Mail("t", "old")) && y.ops == map[]
  {
    var y := Init(map["u" := "old"], {}, map[]);
    SavedDuringInvite(y);
    RunOfThree(y, StartEarly(0, "u", Invite), StartChange(1, "u", "new"), Save(1));
    var first := [StartEarly(0, "u", Invite), StartChange(1, "u", "new"), Save(1)];
    var second := [ClearAfterSave(1), EarlyMint(0, "t", 100), EarlySend(0)];
    MintedAfterDelete(Run(y, first));
    RunOfThree(Run(y, first), ClearAfterSave(1), EarlyMint(0, "t", 100), EarlySend(0));
    RunConcat(y, first, second);
    assert first + second == [StartEarly(0, "u", Invite), StartChange(1, "u", "new"), Save(1),
                              ClearAfterSave(1), EarlyMint(0, "t", 100), EarlySend(0)];
  }
}

/**
 What the statements and the undisturbed operations do, told by their inputs: links are
 refused once used or expired, and every path delivers what it is for.
 */
module GrantOutcomes {
  import opened Options
  import opened GrantTable
  import opened Grants

  /** A link works exactly while it is there, unused and unexpired, and using it marks it. */
  lemma RedeemOutcome(y: System, t: Token, now: int)
    ensures var z := Next(y, Redeem(t, now));
      if t in y.rows && y.rows[t].usedAt.None? && now < y.rows[t].expiresAt
      then z == y.(rows := y.rows[t := y.rows[t].(usedAt := Some(now))], redeemed := y.redeemed + [t])
      else z == y
  {
  }

  /** An operation that fails leaves the rows as they are and lets go of the lock; a change
      that was saved goes on to its delete. */
  lemma FailOutcome(y: System, o: OpId)
    ensures var z := Next(y, Fail(o));
      if o !in y.ops || (y.ops[o].Change? && y.ops[o].saved) then z == y
      else z == y.(ops := y.ops - {o}, lock := if y.lock == Some(o) then None else y.lock)
  {
  }

  lemma SetDisabledOutcome(y: System, u: UserId, isDisabled: bool, v: UserId)
    ensures v in Next(y, SetDisabled(u, isDisabled)).disabled <==> if v == u then isDisabled else v in y.disabled
  {
  }

  lemma TableOutcome(rows: map<Token, Grant>, t: Token, u: UserId, now: int)
    ensures Consumable(rows, t, now) <==> t in rows && rows[t].usedAt.None? && now < rows[t].expiresAt
    ensures t in Pruned(rows, now) <==> t in rows && rows[t].expiresAt >= now
    ensures t in Pruned(rows, now) ==> Pruned(rows, now)[t] == rows[t]
    ensures t in DeleteUnused(rows, u) <==> t in rows && (rows[t].user != u || rows[t].usedAt.Some?)
    ensures t in DeleteUnused(rows, u) ==> DeleteUnused(rows, u)[t] == rows[t]
    ensures Consumed(rows, t, now).Keys == rows.Keys
    ensures t in rows ==>
              Consumed(rows, t, now)[t] == if rows[t].usedAt.None? && now < rows[t].expiresAt
                                           then Grant(rows[t].user, rows[t].reason, rows[t].expiresAt, Some(now)) else rows[t]
    ensures forall s <- rows :: s != t ==> Consumed(rows, t, now)[s] == rows[s]
  {
  }

  /** The rows are those before without the account's unused ones. */
  ghost predicate Replaced(before: map<Token, Grant>, after: map<Token, Grant>, u: UserId, added: set<Token>) {
    && (forall s :: s in after <==> s in added || (s in before && (before[s].user != u || before[s].usedAt.Some?)))
    && (forall s <- after :: s !in added ==> after[s] == before[s])
  }

  lemma IssueClears(y: System, o: OpId, u: UserId, reason: Reason)
    requires o !in y.ops && u in y.address && y.lock.None?
    ensures Next(Next(Next(y, StartIssue(o, u, reason)), Lock(o)), Clear(o))
         == y.(ops := y.ops[o := Issue(u, reason, Cleared)], lock := Some(o), rows := DeleteUnused(y.rows, u))
  {
    var a := Next(y, StartIssue(o, u, reason));
    assert a == y.(ops := y.ops[o := Issue(u, reason, Waiting)]);
    assert Next(a, Lock(o)) == y.(ops := y.ops[o := Issue(u, reason, Locked)], lock := Some(o));
  }

  lemma IssueMints(y: System, o: OpId, u: UserId, reason: Reason, t: Token, expiresAt: int)
    requires o in y.ops && y.ops[o] == Issue(u, reason, Cleared) && y.lock == Some(o) && t !in y.minted
    ensures Next(Next(y, Mint(o, t, expiresAt)), Unlock(o))
         == y.(ops := y.ops[o := Issue(u, reason, Minted(t))], lock := None, rows := y.rows[t := Grant(u, reason, expiresAt, None)],
               minted := y.minted + {t}, tracked := y.tracked + {t})
  {
    assert Next(y, Mint(o, t, expiresAt)).ops == y.ops[o := Issue(u, reason, Minted(t))];
  }

  lemma IssueSends(y: System, o: OpId, u: UserId, reason: Reason, t: Token)
    requires o in y.ops && y.ops[o] == Issue(u, reason, Minted(t)) && y.lock.None? && u in y.address
    ensures Next(Next(y, ReadRecipient(o)), SendLink(o))
         == y.(ops := y.ops - {o}, mailed := if u in y.disabled then y.mailed else y.mailed + {Mail(t, y.address[u])})
  {
    var z := Next(y, ReadRecipient(o));
    if u in y.disabled {
      assert o !in z.ops;
    } else {
      assert z.ops == y.ops[o := Issue(u, reason, Read(t, y.address[u]))];
      assert z.ops - {o} == y.ops - {o};
    }
  }

  /** Reissuing a link, undisturbed: the account's unused links are gone, the new one
      works until it expires and went to the account's address; to nobody, if the
      account is disabled. */
  lemma IssueDelivers(y: System, o: OpId, u: UserId, reason: Reason, t: Token, expiresAt: int)
    requires o !in y.ops && u in y.address && y.lock.None? && t !in y.minted
    ensures var cleared := Next(Next(Next(y, StartIssue(o, u, reason)), Lock(o)), Clear(o));
      var minted := Next(Next(cleared, Mint(o, t, expiresAt)), Unlock(o));
      var z := Next(Next(minted, ReadRecipient(o)), SendLink(o));
      && Replaced(y.rows, z.rows, u, {t}) && z.rows[t] == Grant(u, reason, expiresAt, None)
      && z.address == y.address && z.ops == y.ops && z.lock.None?
      && z.mailed == if u in y.disabled then y.mailed else y.mailed + {Mail(t, y.address[u])}
  {
    IssueClears(y, o, u, reason);
    var cleared := Next(Next(Next(y, StartIssue(o, u, reason)), Lock(o)), Clear(o));
    IssueMints(cleared, o, u, reason, t, expiresAt);
    var minted := Next(Next(cleared, Mint(o, t, expiresAt)), Unlock(o));
    IssueSends(minted, o, u, reason, t);
    assert minted.ops - {o} == y.ops;
  }

  /** An invitation or a recovery that reads its recipient first adds a link, leaves the
      others, and mails it to the address it read. */
  lemma EarlyDelivers(y: System, o: OpId, u: UserId, reason: Reason, t: Token, expiresAt: int)
    requires o !in y.ops && u in y.address && t !in y.minted
    ensures var z := Next(Next(Next(y, StartEarly(o, u, reason)), EarlyMint(o, t, expiresAt)), EarlySend(o));
      && z.rows == y.rows[t := Grant(u, reason, expiresAt, None)]
      && z.mailed == y.mailed + {Mail(t, y.address[u])}
      && z.address == y.address && z.ops == y.ops && z.tracked == y.tracked
  {
    var a := Next(y, StartEarly(o, u, reason));
    var b := Next(a, EarlyMint(o, t, expiresAt));
    assert b.ops == y.ops[o := Early(u, reason, y.address[u], Some(t))];
  }

  /** A change of address, undisturbed: the new address, and none of the old links. */
  lemma ChangeDelivers(y: System, o: OpId, u: UserId, to: Address)
    requires o !in y.ops && u in y.address
    ensures var z := Next(Next(Next(y, StartChange(o, u, to)), Save(o)), ClearAfterSave(o));
      && z.address == y.address[u := to] && Replaced(y.rows, z.rows, u, {})
      && z.ops == y.ops && z.mailed == y.mailed
  {
    var a := Next(y, StartChange(o, u, to));
    var b := Next(a, Save(o));
    assert b.ops == y.ops[o := Change(u, to, true)];
  }
}
