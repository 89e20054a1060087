/**
 Addresses of accounts: the email columns of internal/store/users.go, the
 address-change service (internal/server/service/email_change.go), and the three
 places that create an account (admin.go, oidc.go, bootstrap.go).

 `Norm` stands for NormalizeAddress: None for an unusable address, else its
 canonical form. All that is assumed of it is that a canonical form is non-empty and
 its own canonical form.
 */
module Accounts {
  import opened Options

  type UserId = string
  type Norm = string -> Option<string>

  const EMAIL_CHANGE_TTL := 3600

  /** An empty `pending` is "nothing pending", an empty `subject` "not linked". */
  datatype User = User(email: string, pending: string, token: string, pendingUntil: int, admin: bool, subject: string) {
    function WithoutPending(): User { this.(pending := "", token := "", pendingUntil := 0) }
    predicate PendingAt(now: int) { pending != "" && pendingUntil > now }
  }

  type Users = map<UserId, User>

  datatype Outcome =
    | Done | Unchanged | AlreadyPending | NothingPending | Conflict | NotFound
    | Managed | InvalidEmail | ChangeInvalid | NotSent | Rejected

  datatype Result = Result(users: Users, outcome: Outcome)

  ghost predicate Canonical(norm: Norm, a: string) { norm(a) == Some(a) }

  ghost predicate IsNorm(norm: Norm) {
    forall a :: norm(a).Some? ==> norm(a).value != "" && norm(norm(a).value) == norm(a)
  }

  // ------------------------------------------------------- case-insensitivity

  function Lower(s: string): string {
    seq(|s|, i requires 0 <= i < |s| => if 'A' <= s[i] <= 'Z' then (s[i] as int + 32) as char else s[i])
  }

  predicate EqualFold(a: string, b: string) { Lower(a) == Lower(b) }

  /** Does this row hold the address, as its own or as a pending change? */
  predicate Holds(norm: Norm, u: User, a: string, now: int) {
    || (norm(u.email).Some? && EqualFold(norm(u.email).value, a))
    || (u.PendingAt(now) && EqualFold(u.pending, a))
  }

  /** addressHeld. `except` is the account the change is for, None for a new one. */
  predicate Held(norm: Norm, users: Users, a: string, except: Option<UserId>, now: int) {
    exists id <- users :: Some(id) != except && Holds(norm, users[id], a, now)
  }

  // ---------------------------------------------------------------- statements

  /** The UNIQUE index is exact. */
  predicate Taken(users: Users, a: string, except: Option<UserId>) {
    exists id <- users :: Some(id) != except && users[id].email == a
  }

  function Create(users: Users, id: UserId, u: User): Result {
    if id in users || Taken(users, u.email, None) then Result(users, Conflict) else Result(users[id := u], Done)
  }

  function SetPendingEmail(users: Users, id: UserId, a: string, token: string, until: int): Result {
    if id !in users then Result(users, NotFound)
    else Result(users[id := users[id].(pending := a, token := token, pendingUntil := until)], Done)
  }

  function ClearPendingEmail(users: Users, id: UserId): Result {
    if id !in users then Result(users, NotFound) else Result(users[id := users[id].WithoutPending()], Done)
  }

  function ConfirmPendingEmail(users: Users, id: UserId, token: string, now: int): Result {
    if id !in users || !users[id].PendingAt(now) || users[id].token != token then Result(users, NotFound)
    else if Taken(users, users[id].pending, Some(id)) then Result(users, Conflict)
    else Result(users[id := users[id].WithoutPending().(email := users[id].pending)], Done)
  }

  function SetEmail(users: Users, id: UserId, a: string): Result {
    if id !in users then Result(users, NotFound)
    else if Taken(users, a, Some(id)) then Result(users, Conflict)
    else Result(users[id := users[id].WithoutPending().(email := a)], Done)
  }

  function ClearExpired(users: Users, now: int): Users {
    map id | id in users :: if users[id].pending != "" && users[id].pendingUntil < now then users[id].WithoutPending() else users[id]
  }

  // ---------------------------------------------------------------- operations

  /** `sent` is false when a configured mailer failed to carry the confirmation. */
  function Request(norm: Norm, users: Users, id: UserId, a: string, token: string, sent: bool, now: int): Result
    requires id in users
  {
    var u := users[id];
    if u.subject != "" then Result(users, Managed)
    else if norm(a).None? then Result(users, InvalidEmail)
    else if EqualFold(norm(a).value, u.email) then Result(users, Unchanged)
    else if Held(norm, users, norm(a).value, Some(id), now) then Result(users, Conflict)
    else if EqualFold(u.pending, norm(a).value) && u.pendingUntil > now then Result(users, AlreadyPending)
    else
      var staged := SetPendingEmail(users, id, norm(a).value, token, now + EMAIL_CHANGE_TTL);
      if sent then staged else Result(ClearPendingEmail(staged.users, id).users, NotSent)
  }

  function Cancel(users: Users, id: UserId): Result
    requires id in users
  {
    if users[id].pending == "" then Result(users, NothingPending) else ClearPendingEmail(users, id)
  }

  function Confirm(users: Users, id: UserId, token: string, now: int): Result
    requires id in users
  {
    if users[id].subject != "" then Result(users, Managed)
    else
      var r := ConfirmPendingEmail(users, id, token, now);
      if r.outcome.NotFound? then Result(users, ChangeInvalid) else r
  }

  function AdminSet(norm: Norm, users: Users, id: UserId, a: string, now: int): Result
    requires id in users
  {
    if norm(a).None? then Result(users, InvalidEmail)
    else if EqualFold(norm(a).value, users[id].email) then Result(users, Unchanged)
    else if Held(norm, users, norm(a).value, Some(id), now) then Result(users, Conflict)
    else SetEmail(users, id, norm(a).value)
  }

  /** Never rejects the login: any obstacle keeps the stored address. */
  function SyncFromIDP(norm: Norm, users: Users, id: UserId, claim: string, now: int): Users
    requires id in users
  {
    if claim == "" || norm(claim).None? || EqualFold(norm(claim).value, users[id].email)
       || Held(norm, users, norm(claim).value, Some(id), now)
    then users else SetEmail(users, id, norm(claim).value).users
  }

  function Invite(norm: Norm, users: Users, id: UserId, a: string, admin: bool, now: int): Result {
    if norm(a).None? then Result(users, InvalidEmail)
    else if Held(norm, users, norm(a).value, None, now) then Result(users, Conflict)
    else Create(users, id, User(norm(a).value, "", "", 0, admin, ""))
  }

  /** FinishClaim, once the single bootstrap row is consumed. */
  function Claim(norm: Norm, users: Users, id: UserId, a: string): Result {
    if norm(a).None? then Result(users, InvalidEmail)
    else Create(users, id, User(norm(a).value, "", "", 0, true, ""))
  }

  /** findByEmail: the exact row if there is one, else any row with that canonical form. */
  ghost predicate FoundBy(norm: Norm, users: Users, a: string, id: UserId) {
    && id in users
    && (if Taken(users, a, None) then users[id].email == a else norm(users[id].email) == Some(a))
  }

  /** LoginOrLink for an identity no row is linked to. */
  ghost function Login(norm: Norm, users: Users, newId: UserId, subject: string, claim: string, linkable: bool, signup: bool): Result {
    if claim == "" || norm(claim).None? then Result(users, Rejected)
    else
      var a := norm(claim).value;
      if id :| FoundBy(norm, users, a, id) then
        if !linkable || users[id].admin || users[id].subject != "" || Taken(users, a, Some(id)) then Result(users, Rejected)
        else Result(users[id := users[id].(email := a, subject := subject)], Done)
      else if !signup then Result(users, Rejected)
      else
        var r := Create(users, newId, User(a, "", "", 0, false, subject));
        if r.outcome.Done? then r else Result(users, Rejected)
  }

  // ---------------------------------------------------------------- uniqueness

  /** Everything a row holds, ignoring case. */
  function Keys(norm: Norm, u: User, now: int): set<string> {
    (if norm(u.email).Some? then {Lower(norm(u.email).value)} else {}) + (if u.PendingAt(now) then {Lower(u.pending)} else {})
  }

  /** No two rows hold one address: neither canonical addresses nor pending changes
      that have not expired are equal ignoring case. */
  ghost predicate Unique(norm: Norm, users: Users, now: int) {
    forall i, j :: i in users && j in users && i != j ==> Keys(norm, users[i], now) !! Keys(norm, users[j], now)
  }

  ghost predicate PendingsCanonical(norm: Norm, users: Users) {
    forall id <- users :: users[id].pending != "" ==> Canonical(norm, users[id].pending)
  }

  ghost predicate Sound(norm: Norm, users: Users, now: int) {
    Unique(norm, users, now) && PendingsCanonical(norm, users)
  }

  lemma HoldsIsKey(norm: Norm, u: User, a: string, now: int)
    ensures Holds(norm, u, a, now) <==> Lower(a) in Keys(norm, u, now)
  {
  }

  /** A row may take an address that no other row holds. */
  lemma TakingKeepsUnique(norm: Norm, users: Users, id: UserId, u: User, a: string, now: int)
    requires Unique(norm, users, now)
    requires !Held(norm, users, a, if id in users then Some(id) else None, now)
    requires Keys(norm, u, now) <= (if id in users then Keys(norm, users[id], now) else {}) + {Lower(a)}
    ensures Unique(norm, users[id := u], now)
  {
    forall j | j in users && j != id ensures Keys(norm, u, now) !! Keys(norm, users[j], now) {
      HoldsIsKey(norm, users[j], a, now);
      if id in users { assert Keys(norm, users[id], now) !! Keys(norm, users[j], now); }
    }
  }

  /** A row may let go of what it holds. */
  lemma ReleasingKeepsUnique(norm: Norm, users: Users, id: UserId, u: User, now: int)
    requires Unique(norm, users, now) && id in users && Keys(norm, u, now) <= Keys(norm, users[id], now)
    ensures Unique(norm, users[id := u], now)
  {
    forall j | j in users && j != id ensures Keys(norm, u, now) !! Keys(norm, users[j], now) {
      assert Keys(norm, users[id], now) !! Keys(norm, users[j], now);
    }
  }

  lemma TimeKeepsUnique(norm: Norm, users: Users, now: int, later: int)
    requires Unique(norm, users, now) && now <= later
    ensures Unique(norm, users, later)
  {
    forall i, j | i in users && j in users && i != j ensures Keys(norm, users[i], later) !! Keys(norm, users[j], later) {
      assert Keys(norm, users[i], now) !! Keys(norm, users[j], now);
      assert Keys(norm, users[i], later) <= Keys(norm, users[i], now);
      assert Keys(norm, users[j], later) <= Keys(norm, users[j], now);
    }
  }

  lemma RequestKeepsSound(norm: Norm, users: Users, id: UserId, a: string, token: string, sent: bool, now: int)
    requires IsNorm(norm) && Sound(norm, users, now) && id in users
    ensures Sound(norm, Request(norm, users, id, a, token, sent, now).users, now)
  {
    var r := Request(norm, users, id, a, token, sent, now);
    if r.outcome.Done? {
      TakingKeepsUnique(norm, users, id, r.users[id], norm(a).value, now);
    } else if r.outcome.NotSent? {
      assert r.users == users[id := users[id].WithoutPending()];
      ReleasingKeepsUnique(norm, users, id, r.users[id], now);
    }
  }

  lemma CancelKeepsSound(norm: Norm, users: Users, id: UserId, now: int)
    requires Sound(norm, users, now) && id in users
    ensures Sound(norm, Cancel(users, id).users, now)
  {
    ReleasingKeepsUnique(norm, users, id, Cancel(users, id).users[id], now);
  }

  /** Confirming an unexpired change of an unlinked account never conflicts, and the
      account's address becomes the pending one. */
  lemma ConfirmNeverConflicts(norm: Norm, users: Users, id: UserId, token: string, now: int)
    requires IsNorm(norm) && Sound(norm, users, now) && id in users
    ensures Sound(norm, Confirm(users, id, token, now).users, now)
    ensures !Confirm(users, id, token, now).outcome.Conflict?
    ensures Confirm(users, id, token, now).outcome.Done? <==>
              users[id].subject == "" && users[id].PendingAt(now) && users[id].token == token
    ensures Confirm(users, id, token, now).outcome.Done? ==>
              Confirm(users, id, token, now).users[id].email == users[id].pending
  {
    var u := users[id];
    if u.PendingAt(now) {
      forall j | j in users && j != id ensures users[j].email != u.pending {
        assert Keys(norm, u, now) !! Keys(norm, users[j], now);
        assert Lower(u.pending) in Keys(norm, u, now);
      }
      ReleasingKeepsUnique(norm, users, id, u.WithoutPending().(email := u.pending), now);
    }
  }

  lemma SetEmailKeepsSound(norm: Norm, users: Users, id: UserId, a: string, now: int)
    requires Sound(norm, users, now) && id in users && Canonical(norm, a) && !Held(norm, users, a, Some(id), now)
    ensures Sound(norm, SetEmail(users, id, a).users, now) && SetEmail(users, id, a).outcome.Done?
  {
    forall j | j in users && j != id ensures users[j].email != a {
      assert !Holds(norm, users[j], a, now);
    }
    TakingKeepsUnique(norm, users, id, users[id].WithoutPending().(email := a), a, now);
  }

  lemma PruneKeepsSound(norm: Norm, users: Users, now: int)
    requires Sound(norm, users, now)
    ensures Sound(norm, ClearExpired(users, now), now)
  {
    var after := ClearExpired(users, now);
    forall i, j | i in after && j in after && i != j ensures Keys(norm, after[i], now) !! Keys(norm, after[j], now) {
      assert Keys(norm, users[i], now) !! Keys(norm, users[j], now);
      assert Keys(norm, after[i], now) <= Keys(norm, users[i], now) && Keys(norm, after[j], now) <= Keys(norm, users[j], now);
    }
  }

  /** A new row keeps addresses unique exactly when nobody held its address: what the
      invite checks, and what first-run setup and signup do not. */
  lemma NewRowKeepsSoundIff(norm: Norm, users: Users, id: UserId, u: User, now: int)
    requires Sound(norm, users, now) && Canonical(norm, u.email) && u.pending == "" && id !in users
    ensures Create(users, id, u).outcome.Done? ==>
              (Sound(norm, Create(users, id, u).users, now) <==> !Held(norm, users, u.email, None, now))
    ensures !Held(norm, users, u.email, None, now) ==> Create(users, id, u).outcome.Done?
  {
    if Held(norm, users, u.email, None, now) {
      var j :| j in users && Holds(norm, users[j], u.email, now);
      HoldsIsKey(norm, users[j], u.email, now);
      assert Lower(u.email) in Keys(norm, u, now);
      var after := users[id := u];
      assert after[j] == users[j] && after[id] == u && j != id;
    } else {
      forall j | j in users ensures users[j].email != u.email {
        assert !Holds(norm, users[j], u.email, now);
      }
      TakingKeepsUnique(norm, users, id, u, u.email, now);
    }
  }

  /** Does a login of an unlinked identity create an account? */
  ghost predicate SignsUp(norm: Norm, users: Users, claim: string, signup: bool) {
    && claim != "" && norm(claim).Some? && signup
    && forall id :: !FoundBy(norm, users, norm(claim).value, id)
  }

  /** Linking keeps addresses unique; signup looks for the exact canonical address
      only, so it keeps them unique exactly when no row holds a variant of it. */
  lemma LoginKeepsSoundIff(norm: Norm, users: Users, newId: UserId, subject: string, claim: string, linkable: bool, signup: bool, now: int)
    requires IsNorm(norm) && Sound(norm, users, now) && newId !in users
    ensures Sound(norm, Login(norm, users, newId, subject, claim, linkable, signup).users, now)
       <==> !(SignsUp(norm, users, claim, signup) && Held(norm, users, norm(claim).value, None, now))
  {
    if claim != "" && norm(claim).Some? {
      var a := norm(claim).value;
      if exists id :: FoundBy(norm, users, a, id) {
        var after := Login(norm, users, newId, subject, claim, linkable, signup).users;
        if after != users {
          var id :| FoundBy(norm, users, a, id) && after == users[id := users[id].(email := a, subject := subject)];
          assert norm(users[id].email) == Some(a);
          ReleasingKeepsUnique(norm, users, id, after[id], now);
        }
      } else if signup {
        assert !Taken(users, a, None) by {
          if Taken(users, a, None) {
            var id :| id in users && users[id].email == a;
            assert FoundBy(norm, users, a, id);
          }
        }
        NewRowKeepsSoundIff(norm, users, newId, User(a, "", "", 0, false, subject), now);
      }
    }
  }

  /** Signup beside a case variant: two accounts on one mailbox. */
  lemma SignupCanSplitAMailbox(norm: Norm, users: Users)
    requires IsNorm(norm) && Canonical(norm, "Bob@x.test") && Canonical(norm, "bob@x.test")
    requires users == map["1" := User("Bob@x.test", "", "", 0, false, "")]
    ensures Sound(norm, users, 0)
    ensures Login(norm, users, "2", "sub", "bob@x.test", true, true).outcome.Done?
    ensures !Unique(norm, Login(norm, users, "2", "sub", "bob@x.test", true, true).users, 0)
  {
    assert "Bob@x.test"[0] != "bob@x.test"[0];
    assert Lower("Bob@x.test") == Lower("bob@x.test");
    assert Holds(norm, users["1"], "bob@x.test", 0);
    assert !Taken(users, "bob@x.test", None);
    assert forall id :: !FoundBy(norm, users, "bob@x.test", id);
    LoginKeepsSoundIff(norm, users, "2", "sub", "bob@x.test", true, true, 0);
  }
}

/**
 What each operation on addresses answers and leaves, column by column.
 */
module AccountOutcomes {
  import opened Options
  import opened Accounts

  predicate SameLetter(c: char, d: char) {
    c == d || ('A' <= c <= 'Z' && d as int == c as int + 32) || ('A' <= d <= 'Z' && c as int == d as int + 32)
  }

  /** Equal but for the case of ASCII letters. */
  lemma FoldIgnoresAsciiCase(a: string, b: string)
    ensures EqualFold(a, b) <==>
              |a| == |b| && forall i :: 0 <= i < |a| ==> SameLetter(a[i], b[i])
  {
    assert |Lower(a)| == |a| && |Lower(b)| == |b|;
    if |a| == |b| {
      assert Lower(a) == Lower(b) <==> forall i :: 0 <= i < |a| ==> Lower(a)[i] == Lower(b)[i];
      forall i | 0 <= i < |a| ensures Lower(a)[i] == Lower(b)[i] <==> SameLetter(a[i], b[i]) {
      }
    }
  }

  /** Another row has the address, canonical or as a change that has not expired. */
  ghost predicate HeldByAnother(norm: Norm, users: Users, a: string, id: UserId, now: int) {
    exists j :: j in users && j != id &&
      (|| (norm(users[j].email).Some? && EqualFold(norm(users[j].email).value, a))
       || (users[j].pending != "" && users[j].pendingUntil > now && EqualFold(users[j].pending, a)))
  }

  lemma HeldIsByAnother(norm: Norm, users: Users, a: string, id: UserId, now: int)
    ensures Held(norm, users, a, Some(id), now) <==> HeldByAnother(norm, users, a, id, now)
    ensures id !in users ==> (Held(norm, users, a, None, now) <==> HeldByAnother(norm, users, a, id, now))
  {
    if HeldByAnother(norm, users, a, id, now) {
      var j :| j in users && j != id &&
        (|| (norm(users[j].email).Some? && EqualFold(norm(users[j].email).value, a))
         || (users[j].pending != "" && users[j].pendingUntil > now && EqualFold(users[j].pending, a)));
      assert Holds(norm, users[j], a, now);
    }
  }

  /** Uniqueness, pair by pair. */
  lemma UniqueMeans(norm: Norm, users: Users, now: int, i: UserId, j: UserId)
    requires Unique(norm, users, now) && i in users && j in users && i != j
    ensures norm(users[i].email).Some? && norm(users[j].email).Some? ==>
              !EqualFold(norm(users[i].email).value, norm(users[j].email).value)
    ensures norm(users[i].email).Some? && users[j].pending != "" && users[j].pendingUntil > now ==>
              !EqualFold(norm(users[i].email).value, users[j].pending)
    ensures users[i].pending != "" && users[i].pendingUntil > now && users[j].pending != "" && users[j].pendingUntil > now ==>
              !EqualFold(users[i].pending, users[j].pending)
  {
    assert Keys(norm, users[i], now) !! Keys(norm, users[j], now);
    var u, v := users[i], users[j];
    assert norm(u.email).Some? ==> Lower(norm(u.email).value) in Keys(norm, u, now);
    assert norm(v.email).Some? ==> Lower(norm(v.email).value) in Keys(norm, v, now);
    assert u.pending != "" && u.pendingUntil > now ==> Lower(u.pending) in Keys(norm, u, now);
    assert v.pending != "" && v.pendingUntil > now ==> Lower(v.pending) in Keys(norm, v, now);
  }

  /** Which guard refuses a request, and what a request that passes them all stages: the
      canonical address, for an hour. */
  lemma RequestOutcome(norm: Norm, users: Users, id: UserId, a: string, token: string, sent: bool, now: int)
    requires id in users
    ensures var u, r := users[id], Request(norm, users, id, a, token, sent, now);
      if u.subject != "" then r == Result(users, Managed)
      else if norm(a).None? then r == Result(users, InvalidEmail)
      else
        var n := norm(a).value;
        if EqualFold(n, u.email) then r == Result(users, Unchanged)
        else if HeldByAnother(norm, users, n, id, now) then r == Result(users, Conflict)
        else if EqualFold(u.pending, n) && u.pendingUntil > now then r == Result(users, AlreadyPending)
        else if sent then r == Result(users[id := User(u.email, n, token, now + 3600, u.admin, u.subject)], Done)
        else r == Result(users[id := User(u.email, "", "", 0, u.admin, u.subject)], NotSent)
  {
    if norm(a).Some? { HeldIsByAnother(norm, users, norm(a).value, id, now); }
  }

  lemma StagedOutcome(norm: Norm, users: Users, id: UserId, a: string, token: string, now: int)
    requires IsNorm(norm) && id in users && Request(norm, users, id, a, token, true, now).outcome.Done?
    ensures users[id].subject == "" && norm(a).Some? && norm(a).value != ""
    ensures var u := users[id];
      Request(norm, users, id, a, token, true, now).users
        == users[id := User(u.email, norm(a).value, token, now + 3600, u.admin, "")]
  {
    RequestOutcome(norm, users, id, a, token, true, now);
  }

  /** A change that was asked for and mailed is confirmed by its token within the hour,
      and by nothing else: not by another token, and not later. */
  lemma RequestThenConfirm(norm: Norm, users: Users, id: UserId, a: string, token: string, given: string, now: int, later: int)
    requires IsNorm(norm) && Sound(norm, users, now) && id in users && now <= later
    requires Request(norm, users, id, a, token, true, now).outcome.Done?
    ensures var u, staged := users[id], Request(norm, users, id, a, token, true, now).users;
      Confirm(staged, id, given, later)
        == if given == token && later < now + 3600
           then Result(users[id := User(norm(a).value, "", "", 0, u.admin, "")], Done) else Result(staged, ChangeInvalid)
  {
    var staged := Request(norm, users, id, a, token, true, now).users;
    StagedOutcome(norm, users, id, a, token, now);
    RequestKeepsSound(norm, users, id, a, token, true, now);
    TimeKeepsUnique(norm, staged, now, later);
    ConfirmNeverConflicts(norm, staged, id, given, later);
  }

  /** A confirmation: refused for a linked account, a wrong token, or a change that is not
      there or has expired; a conflict if another row has exactly that address. */
  lemma ConfirmOutcome(users: Users, id: UserId, token: string, now: int)
    requires id in users
    ensures var u, r := users[id], Confirm(users, id, token, now);
      if u.subject != "" then r == Result(users, Managed)
      else if u.pending == "" || u.pendingUntil <= now || u.token != token then r == Result(users, ChangeInvalid)
      else if exists j :: j in users && j != id && users[j].email == u.pending then r == Result(users, Conflict)
      else r == Result(users[id := User(u.pending, "", "", 0, u.admin, u.subject)], Done)
  {
  }

  lemma CancelOutcome(users: Users, id: UserId)
    requires id in users
    ensures var u := users[id];
      Cancel(users, id) == if u.pending == "" then Result(users, NothingPending)
                           else Result(users[id := User(u.email, "", "", 0, u.admin, u.subject)], Done)
  {
  }

  /** Of an account, a write of its address changes the address and drops what was pending. */
  lemma SetEmailOutcome(users: Users, id: UserId, a: string)
    ensures id !in users ==> SetEmail(users, id, a) == Result(users, NotFound)
    ensures id in users && (exists j :: j in users && j != id && users[j].email == a) ==> SetEmail(users, id, a) == Result(users, Conflict)
    ensures id in users && (forall j :: j in users && j != id ==> users[j].email != a) ==>
              SetEmail(users, id, a) == Result(users[id := User(a, "", "", 0, users[id].admin, users[id].subject)], Done)
  {
  }

  /** An administrator's write and a login's, of unique addresses: refused by the first
      guard that applies, else written, linked account or not. */
  lemma DirectWriteOutcome(norm: Norm, users: Users, id: UserId, a: string, now: int)
    requires IsNorm(norm) && Sound(norm, users, now) && id in users
    ensures var u, r := users[id], AdminSet(norm, users, id, a, now);
      if norm(a).None? then r == Result(users, InvalidEmail)
      else if EqualFold(norm(a).value, u.email) then r == Result(users, Unchanged)
      else if HeldByAnother(norm, users, norm(a).value, id, now) then r == Result(users, Conflict)
      else r == Result(users[id := User(norm(a).value, "", "", 0, u.admin, u.subject)], Done)
    ensures SyncFromIDP(norm, users, id, a, now) == if a == "" then users else AdminSet(norm, users, id, a, now).users
  {
    if norm(a).Some? {
      HeldIsByAnother(norm, users, norm(a).value, id, now);
      if !HeldByAnother(norm, users, norm(a).value, id, now) { SetEmailKeepsSound(norm, users, id, norm(a).value, now); }
    }
  }

  /** An invite creates a row without a login for an address nobody holds. */
  lemma InviteOutcome(norm: Norm, users: Users, id: UserId, a: string, admin: bool, now: int)
    requires IsNorm(norm) && Sound(norm, users, now) && id !in users
    ensures Invite(norm, users, id, a, admin, now) ==
              if norm(a).None? then Result(users, InvalidEmail)
              else if HeldByAnother(norm, users, norm(a).value, id, now) then Result(users, Conflict)
              else Result(users[id := User(norm(a).value, "", "", 0, admin, "")], Done)
  {
    if norm(a).Some? {
      HeldIsByAnother(norm, users, norm(a).value, id, now);
      NewRowKeepsSoundIff(norm, users, id, User(norm(a).value, "", "", 0, admin, ""), now);
    }
  }

  /** First-run setup creates an administrator unless the exact address is taken. */
  lemma ClaimOutcome(norm: Norm, users: Users, id: UserId, a: string)
    requires id !in users
    ensures Claim(norm, users, id, a) ==
              if norm(a).None? then Result(users, InvalidEmail)
              else if exists j :: j in users && users[j].email == norm(a).value then Result(users, Conflict)
              else Result(users[id := User(norm(a).value, "", "", 0, true, "")], Done)
  {
  }

  /** A login that finds the one account on its address links it, unless linking is off,
      the account is an administrator's, or it is linked already. */
  lemma LoginLinks(norm: Norm, users: Users, newId: UserId, subject: string, claim: string, linkable: bool, signup: bool, now: int, id: UserId)
    requires IsNorm(norm) && Sound(norm, users, now) && newId !in users
    requires claim != "" && norm(claim).Some? && id in users && norm(users[id].email) == norm(claim)
    ensures var u := users[id];
      Login(norm, users, newId, subject, claim, linkable, signup)
        == if linkable && !u.admin && u.subject == ""
           then Result(users[id := User(norm(claim).value, u.pending, u.token, u.pendingUntil, u.admin, subject)], Done)
           else Result(users, Rejected)
  {
    var a := norm(claim).value;
    forall j | FoundBy(norm, users, a, j) ensures j == id {
      assert norm(users[j].email) == Some(a);
      if j != id { UniqueMeans(norm, users, now, j, id); }
    }
    assert norm(a) == Some(a);
    assert forall j :: j in users && users[j].email == a ==> FoundBy(norm, users, a, j);
    assert FoundBy(norm, users, a, id);
  }

  /** A login that finds none signs up, if that is allowed; the new account is no
      administrator's. */
  lemma LoginSignsUp(norm: Norm, users: Users, newId: UserId, subject: string, claim: string, linkable: bool, signup: bool)
    requires IsNorm(norm) && newId !in users
    requires claim == "" || norm(claim).None? || forall j :: j in users ==> norm(users[j].email) != norm(claim)
    ensures Login(norm, users, newId, subject, claim, linkable, signup)
         == if claim != "" && norm(claim).Some? && signup
            then Result(users[newId := User(norm(claim).value, "", "", 0, false, subject)], Done) else Result(users, Rejected)
  {
    if claim != "" && norm(claim).Some? {
      var a := norm(claim).value;
      assert norm(a) == Some(a);
      assert forall j :: j in users ==> users[j].email != a;
      assert forall j :: !FoundBy(norm, users, a, j);
      assert !Taken(users, a, None);
    }
  }

  /** Retention drops the changes whose time has passed, and nothing else. */
  lemma ClearExpiredOutcome(users: Users, now: int, id: UserId)
    ensures ClearExpired(users, now).Keys == users.Keys
    ensures id in users ==>
              var u := users[id];
              ClearExpired(users, now)[id]
                == if u.pending != "" && u.pendingUntil < now then User(u.email, "", "", 0, u.admin, u.subject) else u
  {
  }
}

/**
 Serial runs of every operation on addresses, with a clock that does not go back.
 */
module AccountRuns {
  import opened Options
  import opened Accounts
  import A = Accounts

  datatype Op =
    | Request(id: UserId, address: string, token: string, sent: bool)
    | Cancel(id: UserId)
    | Confirm(id: UserId, token: string)
    | AdminSet(id: UserId, address: string)
    | SyncFromIDP(id: UserId, claim: string)
    | Prune
    | Delete(id: UserId)
    | Invite(id: UserId, address: string, admin: bool)
    | Claim(id: UserId, address: string)
    | Login(id: UserId, subject: string, claim: string, linkable: bool, signup: bool)

  datatype Event = At(now: int, op: Op)

  ghost function Perform(norm: Norm, users: Users, e: Event): Users {
    match e.op
    case Prune => ClearExpired(users, e.now)
    case Delete(id) => users - {id}
    case Invite(id, a, admin) => A.Invite(norm, users, id, a, admin, e.now).users
    case Claim(id, a) => A.Claim(norm, users, id, a).users
    case Login(id, subject, claim, linkable, signup) => A.Login(norm, users, id, subject, claim, linkable, signup).users
    case Request(id, a, token, sent) =>
      if id in users then A.Request(norm, users, id, a, token, sent, e.now).users else users
    case Cancel(id) => if id in users then A.Cancel(users, id).users else users
    case Confirm(id, token) => if id in users then A.Confirm(users, id, token, e.now).users else users
    case AdminSet(id, a) => if id in users then A.AdminSet(norm, users, id, a, e.now).users else users
    case SyncFromIDP(id, claim) => if id in users then A.SyncFromIDP(norm, users, id, claim, e.now) else users
  }

  ghost function Run(norm: Norm, users: Users, events: seq<Event>): Users {
    if events == [] then users
    else Perform(norm, Run(norm, users, events[..|events| - 1]), events[|events| - 1])
  }

  /** Ids of new rows are new, and what the two unguarded creations add is not held. */
  ghost predicate Allowed(norm: Norm, users: Users, e: Event) {
    && (e.op.Invite? || e.op.Claim? || e.op.Login? ==> e.op.id !in users)
    && (e.op.Claim? && norm(e.op.address).Some? ==> !Held(norm, users, norm(e.op.address).value, None, e.now))
    && (e.op.Login? && SignsUp(norm, users, e.op.claim, e.op.signup) ==> !Held(norm, users, norm(e.op.claim).value, None, e.now))
  }

  ghost predicate AllAllowed(norm: Norm, users: Users, events: seq<Event>) {
    events != [] ==>
      var n := |events| - 1;
      AllAllowed(norm, users, events[..n]) && Allowed(norm, Run(norm, users, events[..n]), events[n])
  }

  function LastTime(start: int, events: seq<Event>): int {
    if events == [] then start else events[|events| - 1].now
  }

  predicate ClockRuns(start: int, events: seq<Event>) {
    events != [] ==> ClockRuns(start, events[..|events| - 1]) && LastTime(start, events[..|events| - 1]) <= LastTime(start, events)
  }

  /** The two writes that hand a checked address to the conditional update. */
  lemma ServiceWritesKeepSound(norm: Norm, users: Users, id: UserId, a: string, now: int)
    requires IsNorm(norm) && Sound(norm, users, now) && id in users
    ensures Sound(norm, A.AdminSet(norm, users, id, a, now).users, now)
    ensures Sound(norm, A.SyncFromIDP(norm, users, id, a, now), now)
  {
    if A.AdminSet(norm, users, id, a, now).users != users || A.SyncFromIDP(norm, users, id, a, now) != users {
      SetEmailKeepsSound(norm, users, id, norm(a).value, now);
    }
  }

  lemma CreationKeepsSound(norm: Norm, users: Users, e: Event)
    requires IsNorm(norm) && Sound(norm, users, e.now) && Allowed(norm, users, e)
    requires e.op.Invite? || e.op.Claim? || e.op.Login?
    ensures Sound(norm, Perform(norm, users, e), e.now)
  {
    match e.op
    case Invite(id, a, admin) =>
      if norm(a).Some? { NewRowKeepsSoundIff(norm, users, id, User(norm(a).value, "", "", 0, admin, ""), e.now); }
    case Claim(id, a) =>
      if norm(a).Some? { NewRowKeepsSoundIff(norm, users, id, User(norm(a).value, "", "", 0, true, ""), e.now); }
    case Login(id, subject, claim, linkable, signup) =>
      LoginKeepsSoundIff(norm, users, id, subject, claim, linkable, signup, e.now);
  }

  lemma OpKeepsSound(norm: Norm, users: Users, e: Event)
    requires IsNorm(norm) && Sound(norm, users, e.now) && Allowed(norm, users, e)
    ensures Sound(norm, Perform(norm, users, e), e.now)
  {
    match e.op
    case Request(id, a, token, sent) => if id in users { RequestKeepsSound(norm, users, id, a, token, sent, e.now); }
    case Cancel(id) => if id in users { CancelKeepsSound(norm, users, id, e.now); }
    case Confirm(id, token) => if id in users { ConfirmNeverConflicts(norm, users, id, token, e.now); }
    case AdminSet(id, a) => if id in users { ServiceWritesKeepSound(norm, users, id, a, e.now); }
    case SyncFromIDP(id, claim) => if id in users { ServiceWritesKeepSound(norm, users, id, claim, e.now); }
    case Prune => PruneKeepsSound(norm, users, e.now);
    case Delete(id) => assert forall j <- users - {id} :: (users - {id})[j] == users[j];
    case _ => CreationKeepsSound(norm, users, e);
  }

  /** Address uniqueness over all serial runs. */
  lemma {:induction false} AddressesStayUnique(norm: Norm, users: Users, events: seq<Event>, start: int)
    requires IsNorm(norm) && Sound(norm, users, start) && AllAllowed(norm, users, events) && ClockRuns(start, events)
    ensures Sound(norm, Run(norm, users, events), LastTime(start, events))
  {
    if events != [] {
      var n := |events| - 1;
      AddressesStayUnique(norm, users, events[..n], start);
      TimeKeepsUnique(norm, Run(norm, users, events[..n]), LastTime(start, events[..n]), events[n].now);
      OpKeepsSound(norm, Run(norm, users, events[..n]), events[n]);
    }
  }

  /** Hence, after any such run, the confirmation of a change that has not expired
      succeeds, and the account then has the address it asked for. */
  lemma UnexpiredChangesConfirm(norm: Norm, users: Users, events: seq<Event>, start: int, now: int, id: UserId)
    requires IsNorm(norm) && Sound(norm, users, start) && AllAllowed(norm, users, events) && ClockRuns(start, events)
    requires LastTime(start, events) <= now
    ensures var u := Run(norm, users, events);
      id in u && u[id].subject == "" && u[id].PendingAt(now) ==>
        A.Confirm(u, id, u[id].token, now) == Result(u[id := u[id].WithoutPending().(email := u[id].pending)], Done)
  {
    AddressesStayUnique(norm, users, events, start);
    var u := Run(norm, users, events);
    TimeKeepsUnique(norm, u, LastTime(start, events), now);
    if id in u { ConfirmNeverConflicts(norm, u, id, u[id].token, now); }
  }
}

/**
 The operations in the form of the source: statements on a table, with the guard's
 scan over all rows.
 */
module AccountServices {
  import opened Options
  import opened Accounts
  import A = Accounts

  class AccountService {
    var users: Users
    const norm: Norm

    constructor (norm: Norm)
      ensures users == map[] && this.norm == norm
    {
      users := map[];
      this.norm := norm;
    }

    /** Users().List: every row once, in some order. */
    method List() returns (ids: seq<UserId>)
      ensures forall id :: id in ids <==> id in users
    {
      ids := [];
      var rest := users.Keys;
      while rest != {}
        invariant forall id :: id in ids || id in rest <==> id in users
        decreases rest
      {
        var id :| id in rest;
        ids, rest := ids + [id], rest - {id};
      }
    }

    method AddressHeld(canonical: string, except: Option<UserId>, now: int) returns (held: bool)
      ensures held == Held(norm, users, canonical, except, now)
    {
      var ids := List();
      for i := 0 to |ids|
        invariant forall j :: 0 <= j < i ==> Some(ids[j]) == except || !Holds(norm, users[ids[j]], canonical, now)
      {
        var u := users[ids[i]];
        if Some(ids[i]) == except { continue; }
        var stored := norm(u.email);
        if stored.Some? && EqualFold(stored.value, canonical) { return true; }
        if u.pending != "" && u.pendingUntil > now && EqualFold(u.pending, canonical) { return true; }
      }
      return false;
    }

    method Request(id: UserId, a: string, token: string, sent: bool, now: int) returns (o: Outcome)
      requires id in users
      modifies this
      ensures Result(users, o) == A.Request(norm, old(users), id, a, token, sent, now)
    {
      var u := users[id];
      if u.subject != "" { return Managed; }
      var n := norm(a);
      if n.None? { return InvalidEmail; }
      if EqualFold(n.value, u.email) { return Unchanged; }
      var held := AddressHeld(n.value, Some(id), now);
      if held { return Conflict; }
      if EqualFold(u.pending, n.value) && u.pendingUntil > now { return AlreadyPending; }
      users := users[id := u.(pending := n.value, token := token, pendingUntil := now + EMAIL_CHANGE_TTL)];
      if !sent {
        users := users[id := users[id].WithoutPending()];
        return NotSent;
      }
      return Done;
    }

    method Cancel(id: UserId) returns (o: Outcome)
      requires id in users
      modifies this
      ensures Result(users, o) == A.Cancel(old(users), id)
    {
      if users[id].pending == "" { return NothingPending; }
      users := users[id := users[id].WithoutPending()];
      return Done;
    }

    /** Is the exact address taken by another row? The UNIQUE index decides. */
    method IndexConflict(a: string, id: UserId) returns (taken: bool)
      ensures taken == Taken(users, a, Some(id))
    {
      taken := exists j <- users :: j != id && users[j].email == a;
    }

    method Confirm(id: UserId, token: string, now: int) returns (o: Outcome)
      requires id in users
      modifies this
      ensures Result(users, o) == A.Confirm(old(users), id, token, now)
    {
      var u := users[id];
      if u.subject != "" { return Managed; }
      if u.pending == "" || u.token != token || u.pendingUntil <= now { return ChangeInvalid; }
      var taken := IndexConflict(u.pending, id);
      if taken { return Conflict; }
      users := users[id := u.WithoutPending().(email := u.pending)];
      return Done;
    }

    method SetEmail(id: UserId, a: string) returns (o: Outcome)
      modifies this
      ensures Result(users, o) == A.SetEmail(old(users), id, a)
    {
      if id !in users { return NotFound; }
      var taken := IndexConflict(a, id);
      if taken { return Conflict; }
      users := users[id := users[id].WithoutPending().(email := a)];
      return Done;
    }

    method AdminSet(id: UserId, a: string, now: int) returns (o: Outcome)
      requires id in users
      modifies this
      ensures Result(users, o) == A.AdminSet(norm, old(users), id, a, now)
    {
      var n := norm(a);
      if n.None? { return InvalidEmail; }
      if EqualFold(n.value, users[id].email) { return Unchanged; }
      var held := AddressHeld(n.value, Some(id), now);
      if held { return Conflict; }
      o := SetEmail(id, n.value);
    }

    method SyncFromIDP(id: UserId, claim: string, now: int)
      requires id in users
      modifies this
      ensures users == A.SyncFromIDP(norm, old(users), id, claim, now)
    {
      if claim == "" { return; }
      var n := norm(claim);
      if n.None? || EqualFold(n.value, users[id].email) { return; }
      var held := AddressHeld(n.value, Some(id), now);
      if held { return; }
      var _ := SetEmail(id, n.value);
    }

    /** CreateUserInvite up to the row it creates under a new id. */
    method Invite(id: UserId, a: string, admin: bool, now: int) returns (o: Outcome)
      requires id !in users
      modifies this
      ensures Result(users, o) == A.Invite(norm, old(users), id, a, admin, now)
    {
      var n := norm(a);
      if n.None? { return InvalidEmail; }
      var held := AddressHeld(n.value, None, now);
      if held { return Conflict; }
      if exists j <- users :: users[j].email == n.value { return Conflict; }
      users := users[id := User(n.value, "", "", 0, admin, "")];
      return Done;
    }

    method ClearExpired(now: int) returns (n: nat)
      modifies this
      ensures users == A.ClearExpired(old(users), now)
      ensures n == |(set id | id in old(users) && old(users)[id].pending != "" && old(users)[id].pendingUntil < now)|
    {
      n := |(set id | id in users && users[id].pending != "" && users[id].pendingUntil < now)|;
      users := map id | id in users ::
        if users[id].pending != "" && users[id].pendingUntil < now then users[id].WithoutPending() else users[id];
    }
  }
}
