/**
 Agent request authentication: Verify in internal/auth/hmac.go and the replay table
 in internal/store/replay_nonces.go. `sign` and `open` stand for HMAC-SHA256 and the
 sealing cipher.
 */
module Hmac {
  import opened Options
  import opened Cursor
  import opened Int64
  import opened Sizes

  type DeviceId = string
  type UserId = string
  type Bytes = seq<Octet>

  const LF: Octet := 10

  datatype Device = Device(user: UserId, disabled: bool, sealed: Bytes)

  datatype Request = Request(device: DeviceId, timestamp: Bytes, nonce: Bytes, signature: Bytes, verb: Bytes, path: Bytes, bodyHash: Bytes)

  datatype Reason =
    | UnknownDevice | DeviceDisabled | UnknownUser | UserDisabled
    | BadTimestamp | ClockSkew | SecretUnavailable | BadSignature | Replayed

  datatype Verdict = Accepted(device: DeviceId) | Rejected(reason: Reason)

  /** Seconds; both are truncated durations. */
  datatype Windows = Windows(skew: nat, ttl: nat)

  function CanonicalRequest(verb: Bytes, path: Bytes, timestamp: Bytes, nonce: Bytes, bodyHash: Bytes): Bytes {
    verb + [LF] + path + [LF] + timestamp + [LF] + nonce + [LF] + bodyHash
  }

  /** The test the code makes, on 64-bit integers. */
  predicate SkewRejects(now: int, ts: int, skew: nat) {
    var d := Wrap64(now - ts);
    d > skew || d < 0 - skew
  }

  /** With the clock at most a window before the end of time, the 64-bit test rejects
      exactly outside the window. */
  lemma SkewIsExact(now: int, ts: int, skew: nat)
    requires 0 <= now && now + skew <= MAX_INT64 && IsInt64(ts)
    ensures SkewRejects(now, ts, skew) <==> !(ts - skew <= now <= ts + skew)
  {
    var d := now - ts;
    if d > MAX_INT64 {
      assert Wrap64(d) == d - TWO_64;
    } else {
      assert Wrap64(d) == d;
    }
  }

  /** Later than that, the most negative timestamp wraps into the window. */
  lemma SkewWrapsAtTheEnd(now: int, skew: nat)
    requires 0 <= now && IsInt64(now) && IsInt64(skew) && now + skew > MAX_INT64
    ensures !SkewRejects(now, MIN_INT64, skew) && !(now <= MIN_INT64 + skew)
  {
    assert Wrap64(now - MIN_INT64) == now - MIN_INT64 - TWO_64;
  }

  /** Exactly when no timestamp a client can send passes by wrapping around. */
  lemma SkewIsExactIff(now: int, skew: nat)
    requires 0 <= now && IsInt64(now) && IsInt64(skew)
    ensures (forall ts :: IsInt64(ts) ==> (SkewRejects(now, ts, skew) <==> !(ts - skew <= now <= ts + skew)))
       <==> now + skew <= MAX_INT64
  {
    if now + skew <= MAX_INT64 {
      forall ts | IsInt64(ts) ensures SkewRejects(now, ts, skew) <==> !(ts - skew <= now <= ts + skew) {
        SkewIsExact(now, ts, skew);
      }
    } else {
      SkewWrapsAtTheEnd(now, skew);
      assert IsInt64(MIN_INT64);
    }
  }

  lemma LongerFieldHoldsSeparator(a: Bytes, b: Bytes, x: Bytes, y: Bytes)
    requires a + [LF] + x == b + [LF] + y && |x| < |y|
    ensures LF in y
  {
    assert (a + [LF] + x)[|a|] == LF;
    assert (b + [LF] + y)[|a|] == y[|a| - |b| - 1];
  }

  /** The text after the last separator is fixed. */
  lemma LastFieldIsFixed(a: Bytes, b: Bytes, x: Bytes, y: Bytes)
    requires a + [LF] + x == b + [LF] + y && LF !in x && LF !in y
    ensures a == b && x == y
  {
    if |x| < |y| { LongerFieldHoldsSeparator(a, b, x, y); }
    if |y| < |x| { LongerFieldHoldsSeparator(b, a, y, x); }
    var s := a + [LF] + x;
    assert s[..|a|] == a && s[..|b|] == b;
    assert s[|a| + 1..] == x && s[|b| + 1..] == y;
  }

  /** What a signature covers fixes the timestamp, although the fields are only joined:
      the last three cannot contain a line feed. */
  lemma CanonicalFixesTimestamp(p: Request, q: Request)
    requires LF !in p.timestamp && LF !in p.nonce && LF !in p.bodyHash
    requires LF !in q.timestamp && LF !in q.nonce && LF !in q.bodyHash
    requires CanonicalRequest(p.verb, p.path, p.timestamp, p.nonce, p.bodyHash)
          == CanonicalRequest(q.verb, q.path, q.timestamp, q.nonce, q.bodyHash)
    ensures p.timestamp == q.timestamp && p.nonce == q.nonce && p.bodyHash == q.bodyHash
  {
    var a, b := p.verb + [LF] + p.path, q.verb + [LF] + q.path;
    LastFieldIsFixed(a + [LF] + p.timestamp + [LF] + p.nonce, b + [LF] + q.timestamp + [LF] + q.nonce, p.bodyHash, q.bodyHash);
    LastFieldIsFixed(a + [LF] + p.timestamp, b + [LF] + q.timestamp, p.nonce, q.nonce);
    LastFieldIsFixed(a, b, p.timestamp, q.timestamp);
  }

  /** The five fields stand in the signed text in this order, with one line feed between. */
  lemma CanonicalLayout(verb: Bytes, path: Bytes, timestamp: Bytes, nonce: Bytes, bodyHash: Bytes)
    ensures var text := CanonicalRequest(verb, path, timestamp, nonce, bodyHash);
      var p := |verb| + 1; var t := p + |path| + 1; var n := t + |timestamp| + 1; var b := n + |nonce| + 1;
      && |text| == b + |bodyHash|
      && text[..|verb|] == verb && text[p..p + |path|] == path && text[t..t + |timestamp|] == timestamp
      && text[n..n + |nonce|] == nonce && text[b..] == bodyHash
      && text[p - 1] == text[t - 1] == text[n - 1] == text[b - 1] == LF
  {
    var text := CanonicalRequest(verb, path, timestamp, nonce, bodyHash);
    var p := |verb| + 1;
    var t := p + |path| + 1;
    var n := t + |timestamp| + 1;
    var b := n + |nonce| + 1;
    assert text[..|verb|] == verb && text[p..p + |path|] == path;
    assert text[t..t + |timestamp|] == timestamp && text[n..n + |nonce|] == nonce && text[b..] == bodyHash;
  }

  /** The first line of a text and the rest, when there is a line feed. */
  function FirstLine(text: Bytes): Option<(Bytes, Bytes)> {
    if text == [] then None
    else if text[0] == LF then Some(([], text[1..]))
    else
      var rest := FirstLine(text[1..]);
      if rest.None? then None else Some(([text[0]] + rest.value.0, rest.value.1))
  }

  /** The last line of a text and what is before it, when there is a line feed. */
  function LastLine(text: Bytes): Option<(Bytes, Bytes)> {
    if text == [] then None
    else if text[|text| - 1] == LF then Some((text[..|text| - 1], []))
    else
      var rest := LastLine(text[..|text| - 1]);
      if rest.None? then None else Some((rest.value.0, rest.value.1 + [text[|text| - 1]]))
  }

  lemma {:induction false} FirstLineOf(a: Bytes, b: Bytes)
    requires LF !in a
    ensures FirstLine(a + [LF] + b) == Some((a, b))
  {
    var text := a + [LF] + b;
    if a == [] {
      assert text[1..] == b;
    } else {
      assert text[0] == a[0] && text[1..] == a[1..] + [LF] + b;
      FirstLineOf(a[1..], b);
      assert [a[0]] + a[1..] == a;
    }
  }

  lemma {:induction false} LastLineOf(a: Bytes, b: Bytes)
    requires LF !in b
    ensures LastLine(a + [LF] + b) == Some((a, b))
  {
    var text := a + [LF] + b;
    if b == [] {
      assert text[..|text| - 1] == a;
    } else {
      var init := b[..|b| - 1];
      assert text[|text| - 1] == b[|b| - 1] && text[..|text| - 1] == a + [LF] + init;
      LastLineOf(a, init);
      assert init + [b[|b| - 1]] == b;
    }
  }

  /** The signed text can be taken apart again, whatever the path holds: the first line is
      the verb, the last three are timestamp, nonce and body hash, and the path is what
      is left. */
  lemma CanonicalTakenApart(p: Request)
    requires LF !in p.verb && LF !in p.timestamp && LF !in p.nonce && LF !in p.bodyHash
    ensures var first := FirstLine(CanonicalRequest(p.verb, p.path, p.timestamp, p.nonce, p.bodyHash));
      && first.Some? && first.value.0 == p.verb
      && var body := LastLine(first.value.1);
         && body.Some? && body.value.1 == p.bodyHash
         && var nonce := LastLine(body.value.0);
            && nonce.Some? && nonce.value.1 == p.nonce
            && LastLine(nonce.value.0) == Some((p.path, p.timestamp))
  {
    var timed := p.path + [LF] + p.timestamp;
    var rest := timed + [LF] + p.nonce + [LF] + p.bodyHash;
    assert CanonicalRequest(p.verb, p.path, p.timestamp, p.nonce, p.bodyHash) == p.verb + [LF] + rest;
    FirstLineOf(p.verb, rest);
    LastLineOf(timed + [LF] + p.nonce, p.bodyHash);
    LastLineOf(timed, p.nonce);
    LastLineOf(p.path, p.timestamp);
  }

  /** So a signature over one text is a signature over one request: verb and path too. */
  lemma CanonicalFixesRequest(p: Request, q: Request)
    requires LF !in p.verb && LF !in p.timestamp && LF !in p.nonce && LF !in p.bodyHash
    requires LF !in q.verb && LF !in q.timestamp && LF !in q.nonce && LF !in q.bodyHash
    requires CanonicalRequest(p.verb, p.path, p.timestamp, p.nonce, p.bodyHash)
          == CanonicalRequest(q.verb, q.path, q.timestamp, q.nonce, q.bodyHash)
    ensures p.verb == q.verb && p.path == q.path
    ensures p.timestamp == q.timestamp && p.nonce == q.nonce && p.bodyHash == q.bodyHash
  {
    CanonicalTakenApart(p);
    CanonicalTakenApart(q);
  }

  predicate Enabled(devices: map<DeviceId, Device>, id: DeviceId) {
    id in devices && !devices[id].disabled
  }

  predicate Live(devices: map<DeviceId, Device>, users: map<UserId, bool>, id: DeviceId) {
    Enabled(devices, id) && devices[id].user in users && !users[devices[id].user]
  }

  predicate InTime(devices: map<DeviceId, Device>, users: map<UserId, bool>, p: Request, now: int, skew: nat) {
    Live(devices, users, p.device) && ParseInt(p.timestamp).Some? && !SkewRejects(now, ParseInt(p.timestamp).value, skew)
  }

  /** `nonces` maps a recorded signature to its expiry; `cache` holds opened secrets. */
  class Verifier {
    var nonces: map<Bytes, int>
    var cache: map<DeviceId, Bytes>
    const w: Windows
    const sign: (Bytes, Bytes) -> Bytes
    const open: Bytes -> Option<Bytes>

    constructor (w: Windows, sign: (Bytes, Bytes) -> Bytes, open: Bytes -> Option<Bytes>)
      ensures nonces == map[] && cache == map[] && this.w == w && this.sign == sign && this.open == open
    {
      nonces, cache := map[], map[];
      this.w, this.sign, this.open := w, sign, open;
    }

    /** The secret a request of this device is checked against: the cached one if any. */
    ghost function Secret(id: DeviceId, d: Device): Option<Bytes>
      reads this
    {
      if id in cache then Some(cache[id]) else open(d.sealed)
    }

    /** The signature is the one this device's secret makes over the five fields. */
    ghost predicate Signed(devices: map<DeviceId, Device>, p: Request)
      reads this
    {
      && p.device in devices && Secret(p.device, devices[p.device]).Some?
      && sign(Secret(p.device, devices[p.device]).value,
              CanonicalRequest(p.verb, p.path, p.timestamp, p.nonce, p.bodyHash)) == p.signature
    }

    method SecretFor(id: DeviceId, d: Device) returns (secret: Option<Bytes>)
      modifies this`cache
      ensures secret == old(Secret(id, d))
      ensures cache == if secret.Some? then old(cache)[id := secret.value] else old(cache)
    {
      if id in cache { return Some(cache[id]); }
      secret := open(d.sealed);
      if secret.Some? { cache := cache[id := secret.value]; }
    }

    /** Accepted exactly for a live device of a live account, a timestamp in the window, a
        signature made with the device's secret, and one not recorded yet. A rejected
        request records nothing. */
    method Verify(devices: map<DeviceId, Device>, users: map<UserId, bool>, p: Request, now: int) returns (r: Verdict)
      modifies this
      ensures r.Accepted? <==>
                && p.device in devices && !devices[p.device].disabled
                && devices[p.device].user in users && !users[devices[p.device].user]
                && ParseInt(p.timestamp).Some? && !SkewRejects(now, ParseInt(p.timestamp).value, w.skew)
                && old(Signed(devices, p)) && p.signature !in old(nonces)
      ensures r.Accepted? ==> r.device == p.device
      ensures r.Rejected? ==>
                match r.reason
                case UnknownDevice => p.device !in devices
                case DeviceDisabled => p.device in devices && devices[p.device].disabled
                case UnknownUser => Enabled(devices, p.device) && devices[p.device].user !in users
                case UserDisabled => Enabled(devices, p.device) && devices[p.device].user in users && users[devices[p.device].user]
                case BadTimestamp => Live(devices, users, p.device) && ParseInt(p.timestamp).None?
                case ClockSkew =>
                  Live(devices, users, p.device) && ParseInt(p.timestamp).Some? && SkewRejects(now, ParseInt(p.timestamp).value, w.skew)
                case SecretUnavailable => InTime(devices, users, p, now, w.skew) && old(Secret(p.device, devices[p.device])).None?
                case BadSignature => InTime(devices, users, p, now, w.skew) && !old(Signed(devices, p))
                case Replayed => InTime(devices, users, p, now, w.skew) && old(Signed(devices, p)) && p.signature in old(nonces)
      ensures nonces == if r.Accepted? then old(nonces)[p.signature := Wrap64(ParseInt(p.timestamp).value + w.ttl)] else old(nonces)
      ensures forall d <- old(cache) :: d in cache && cache[d] == old(cache)[d]
      ensures forall d <- cache :: d in old(cache) || (d == p.device && d in devices && Some(cache[d]) == open(devices[d].sealed))
    {
      if p.device !in devices { return Rejected(UnknownDevice); }
      var dev := devices[p.device];
      if dev.disabled { return Rejected(DeviceDisabled); }
      if dev.user !in users { return Rejected(UnknownUser); }
      if users[dev.user] { return Rejected(UserDisabled); }
      var ts := ParseInt(p.timestamp);
      if ts.None? { return Rejected(BadTimestamp); }
      var d := Wrap64(now - ts.value);
      if d > w.skew || d < 0 - w.skew { return Rejected(ClockSkew); }
      var secret := SecretFor(p.device, dev);
      if secret.None? { return Rejected(SecretUnavailable); }
      var expected := sign(secret.value, CanonicalRequest(p.verb, p.path, p.timestamp, p.nonce, p.bodyHash));
      if expected != p.signature { return Rejected(BadSignature); }
      if p.signature in nonces { return Rejected(Replayed); }
      nonces := nonces[p.signature := Wrap64(ts.value + w.ttl)];
      return Accepted(p.device);
    }

    method PruneExpired(now: int) returns (n: nat)
      modifies this`nonces
      ensures nonces == map s | s in old(nonces) && old(nonces)[s] >= now :: old(nonces)[s]
      ensures n == |old(nonces)| - |nonces|
    {
      var gone := set s | s in nonces && nonces[s] < now;
      n := |gone|;
      RemovedSize(nonces, gone);
      nonces := nonces - gone;
    }

    /** After a rotation, so that the next request opens the new secret. */
    method Invalidate(id: DeviceId)
      modifies this`cache
      ensures cache == old(cache) - {id}
    {
      cache := cache - {id};
    }
  }
}

/**
 Runs of verifications and prunings, with the clock that only moves forward. A
 verification reads the clock once and inserts its nonce up to `stall` seconds later;
 with `stall` zero it is atomic. Each signature fixes its timestamp.
 */
module Replay {
  import opened Hmac

  type Signature = nat
  type CallId = nat
  type Stamps = Signature -> int

  /** `pending` holds the signature and clock reading of the calls that passed every
      check before the insert. */
  datatype System = System(clock: int, nonces: map<Signature, int>, pending: map<CallId, (Signature, int)>, accepted: seq<Signature>)

  datatype Step =
    | Tick(seconds: nat)
    | Check(v: CallId, sig: Signature)
    | Insert(v: CallId)
    | GiveUp(v: CallId)
    | Prune(now: int)

  function Init(clock: int): System { System(clock, map[], map[], []) }

  function StepCheck(w: Windows, stamp: Stamps, y: System, v: CallId, sig: Signature): System {
    if v !in y.pending && stamp(sig) - w.skew <= y.clock <= stamp(sig) + w.skew
    then y.(pending := y.pending[v := (sig, y.clock)]) else y
  }

  /** The primary key is the gate. */
  function StepInsert(w: Windows, stall: nat, stamp: Stamps, y: System, v: CallId): System {
    if v !in y.pending || y.clock > y.pending[v].1 + stall then y
    else
      var sig := y.pending[v].0;
      if sig in y.nonces then y.(pending := y.pending - {v})
      else System(y.clock, y.nonces[sig := stamp(sig) + w.ttl], y.pending - {v}, y.accepted + [sig])
  }

  /** Pruning may use a clock reading of its own that is already old. */
  function Next(w: Windows, stall: nat, stamp: Stamps, y: System, step: Step): System {
    match step
    case Tick(n) => y.(clock := y.clock + n)
    case Check(v, sig) => StepCheck(w, stamp, y, v, sig)
    case Insert(v) => StepInsert(w, stall, stamp, y, v)
    case GiveUp(v) => y.(pending := y.pending - {v})
    case Prune(now) =>
      if now <= y.clock then y.(nonces := map s | s in y.nonces && y.nonces[s] >= now :: y.nonces[s]) else y
  }

  function Run(w: Windows, stall: nat, stamp: Stamps, clock: int, steps: seq<Step>): System {
    if steps == [] then Init(clock)
    else Next(w, stall, stamp, Run(w, stall, stamp, clock, steps[..|steps| - 1]), steps[|steps| - 1])
  }

  predicate Distinct(sigs: seq<Signature>) {
    forall i, j :: 0 <= i < j < |sigs| ==> sigs[i] != sigs[j]
  }

  /** An accepted signature is recorded until its own time has passed. */
  ghost predicate Inv(w: Windows, stamp: Stamps, y: System) {
    && Distinct(y.accepted)
    && (forall s <- y.accepted :: s in y.nonces || y.clock > stamp(s) + w.ttl)
    && (forall s <- y.nonces :: y.nonces[s] == stamp(s) + w.ttl)
    && (forall v <- y.pending :: y.pending[v].1 <= stamp(y.pending[v].0) + w.skew)
  }

  lemma StepKeepsInv(w: Windows, stall: nat, stamp: Stamps, y: System, step: Step)
    requires Inv(w, stamp, y) && w.ttl >= w.skew + stall
    ensures Inv(w, stamp, Next(w, stall, stamp, y, step))
  {
  }

  lemma {:induction false} RunKeepsInv(w: Windows, stall: nat, stamp: Stamps, clock: int, steps: seq<Step>)
    requires w.ttl >= w.skew + stall
    ensures Inv(w, stamp, Run(w, stall, stamp, clock, steps))
  {
    if steps != [] {
      RunKeepsInv(w, stall, stamp, clock, steps[..|steps| - 1]);
      StepKeepsInv(w, stall, stamp, Run(w, stall, stamp, clock, steps[..|steps| - 1]), steps[|steps| - 1]);
    }
  }

  lemma RunThen(w: Windows, stall: nat, stamp: Stamps, clock: int, first: seq<Step>, step: Step)
    ensures Run(w, stall, stamp, clock, first + [step]) == Next(w, stall, stamp, Run(w, stall, stamp, clock, first), step)
  {
    assert (first + [step])[..|first|] == first;
  }

  /** A first call is accepted, and a second one passes its check at the end of the window. */
  lemma CheckedAgain(w: Windows, stall: nat, stamp: Stamps, sig: Signature) returns (steps: seq<Step>)
    ensures Run(w, stall, stamp, stamp(sig), steps)
         == System(stamp(sig) + w.skew, map[sig := stamp(sig) + w.ttl], map[0 := (sig, stamp(sig) + w.skew)], [sig])
  {
    var t := stamp(sig);
    steps := [];
    RunThen(w, stall, stamp, t, steps, Check(0, sig));
    steps := steps + [Check(0, sig)];
    assert Run(w, stall, stamp, t, steps) == System(t, map[], map[0 := (sig, t)], []);
    RunThen(w, stall, stamp, t, steps, Insert(0));
    steps := steps + [Insert(0)];
    assert Run(w, stall, stamp, t, steps) == System(t, map[sig := t + w.ttl], map[], [sig]);
    RunThen(w, stall, stamp, t, steps, Tick(w.skew));
    steps := steps + [Tick(w.skew)];
    RunThen(w, stall, stamp, t, steps, Check(0, sig));
    steps := steps + [Check(0, sig)];
  }

  /** A signature checked at the end of its window and inserted after its first record
      was pruned is accepted twice. */
  lemma LateInsertIsAcceptedTwice(w: Windows, stall: nat, stamp: Stamps, sig: Signature) returns (steps: seq<Step>)
    requires w.ttl < w.skew + stall
    ensures Run(w, stall, stamp, stamp(sig), steps).accepted == [sig, sig]
  {
    var t, late := stamp(sig), stamp(sig) + w.skew + stall;
    steps := CheckedAgain(w, stall, stamp, sig);
    RunThen(w, stall, stamp, t, steps, Tick(stall));
    steps := steps + [Tick(stall)];
    RunThen(w, stall, stamp, t, steps, Prune(late));
    steps := steps + [Prune(late)];
    assert Run(w, stall, stamp, t, steps) == System(late, map[], map[0 := (sig, t + w.skew)], [sig]);
    RunThen(w, stall, stamp, t, steps, Insert(0));
    steps := steps + [Insert(0)];
  }

  /** No accepted signature is accepted twice, exactly when a nonce outlives the skew
      window by the longest time a verification takes to insert it. */
  lemma AcceptedAtMostOnceIff(w: Windows, stall: nat, stamp: Stamps)
    ensures (forall clock, steps :: Distinct(Run(w, stall, stamp, clock, steps).accepted)) <==> w.ttl >= w.skew + stall
  {
    if w.ttl >= w.skew + stall {
      forall clock, steps ensures Distinct(Run(w, stall, stamp, clock, steps).accepted) {
        RunKeepsInv(w, stall, stamp, clock, steps);
      }
    } else {
      var steps := LateInsertIsAcceptedTwice(w, stall, stamp, 0);
      var twice: seq<Signature> := [0, 0];
      assert twice[0] == twice[1];
    }
  }

  const NS := 1_000_000_000

  /** The configuration check compares the durations before they are truncated; that is
      enough for verifications that insert within the second they read. */
  lemma ConfigurationSuffices(skewWindow: nat, nonceTTL: nat, stamp: Stamps, clock: int, steps: seq<Step>)
    requires nonceTTL >= skewWindow
    ensures Distinct(Run(Windows(skewWindow / NS, nonceTTL / NS), 0, stamp, clock, steps).accepted)
  {
    assert nonceTTL / NS >= skewWindow / NS;
    AcceptedAtMostOnceIff(Windows(skewWindow / NS, nonceTTL / NS), 0, stamp);
  }
}
