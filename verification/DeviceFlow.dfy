/**
 Device-code enrollment (RFC 8628): the server's pacing gate
 (internal/store/oidc_device_flows.go), its poll handler
 (internal/server/api/enroll_oidc.go), and the client's loop
 (internal/client/enroll/oidc.go) against that server.
 */
module DeviceFlow {
  import opened Options
  import opened Sizes

  type FlowId = string

  const MIN_INTERVAL := 5
  const SLOW_DOWN := 5
  const MAX_BAD_GATEWAY := 3
  /** Nanoseconds in a second: the client's clock counts the former, the server's the latter. */
  const NS := 1_000_000_000

  /** Instants are unix seconds; `lastPolledAt` is 0 until the first poll. */
  datatype Flow = Flow(interval: int, expiresAt: int, lastPolledAt: int)

  type Flows = map<FlowId, Flow>

  predicate Due(f: Flow, now: int) {
    f.expiresAt > now && now - f.lastPolledAt >= f.interval
  }

  // ---------------------------------------------------------------- the server

  datatype Gate = Allowed | Paced | NotFound

  /** TryPoll: the stamp is the gate. */
  function TryPolled(flows: Flows, id: FlowId, now: int): (Gate, Flows) {
    if id !in flows || flows[id].expiresAt <= now then (NotFound, flows)
    else if Due(flows[id], now) then (Allowed, flows[id := flows[id].(lastPolledAt := now)])
    else (Paced, flows)
  }

  /** Two polls are both allowed only when the later comes an interval after the
      earlier, as often as the flow's interval was raised in between. */
  lemma PollsKeepTheirDistance(flows: Flows, id: FlowId, first: int, raised: nat, second: int)
    requires TryPolled(flows, id, first).0.Allowed?
    ensures var after := TryPolled(flows, id, first).1;
      var later := after[id := after[id].(interval := after[id].interval + raised)];
      TryPolled(later, id, second).0.Allowed? <==>
        second < flows[id].expiresAt && second - first >= flows[id].interval + raised
  {
  }

  /** Which of the three the gate says, and that it stamps the row only when it opens. */
  lemma GateOutcome(flows: Flows, id: FlowId, now: int)
    ensures var r := TryPolled(flows, id, now);
      if id !in flows || flows[id].expiresAt <= now then r == (NotFound, flows)
      else if now - flows[id].lastPolledAt < flows[id].interval then r == (Paced, flows)
      else r == (Allowed, flows[id := Flow(flows[id].interval, flows[id].expiresAt, now)])
  {
  }

  /** What the identity provider says when asked, and what became of a completed login. */
  datatype Provider = Pending | SlowDown | Denied | Complete(loginOk: bool, mintOk: bool) | Error

  /** What the client sees. `TryAgain` is a 200 with status pending or slow_down. */
  datatype Answer = Enrolled | TryAgain(slowDown: bool) | Terminal | BadGateway

  class DeviceFlows {
    var flows: Flows

    constructor ()
      ensures flows == map[]
    {
      flows := map[];
    }

    /** startOIDCDevice: False when the flow id is taken. */
    method Start(id: FlowId, interval: int, expiresAt: int) returns (ok: bool)
      modifies this
      ensures ok == (id !in old(flows))
      ensures flows == if ok then old(flows)[id := Flow(if interval > MIN_INTERVAL then interval else MIN_INTERVAL, expiresAt, 0)]
                       else old(flows)
    {
      ok := id !in flows;
      if ok { flows := flows[id := Flow(if interval > MIN_INTERVAL then interval else MIN_INTERVAL, expiresAt, 0)]; }
    }

    method TryPoll(id: FlowId, now: int) returns (gate: Gate)
      modifies this
      ensures (gate, flows) == TryPolled(old(flows), id, now)
    {
      var stamped := id in flows && flows[id].expiresAt > now && now - flows[id].lastPolledAt >= flows[id].interval;
      if stamped { flows := flows[id := flows[id].(lastPolledAt := now)]; }
      if id !in flows || flows[id].expiresAt <= now { return NotFound; }
      return if stamped then Allowed else Paced;
    }

    method BumpInterval(id: FlowId, delta: int)
      modifies this
      ensures flows == if id in old(flows) then old(flows)[id := old(flows)[id].(interval := old(flows)[id].interval + delta)]
                       else old(flows)
    {
      if id in flows { flows := flows[id := flows[id].(interval := flows[id].interval + delta)]; }
    }

    method PruneExpired(now: int) returns (n: nat)
      modifies this
      ensures flows == map id | id in old(flows) && old(flows)[id].expiresAt > now :: old(flows)[id]
      ensures n == |old(flows)| - |flows|
    {
      var gone := set id | id in flows && flows[id].expiresAt <= now;
      n := |gone|;
      RemovedSize(flows, gone);
      flows := flows - gone;
    }

    /** pollOIDCDevice. Every terminal outcome deletes the flow; a raise of the interval
        may fail silently (`raises` false). */
    method Poll(id: FlowId, now: int, idp: Provider, raises: bool) returns (answer: Answer, gate: Gate)
      modifies this
      ensures gate == TryPolled(old(flows), id, now).0
      ensures gate.NotFound? ==> answer == Terminal
      ensures gate.Paced? ==> answer == TryAgain(true)
      ensures gate.Allowed? ==> answer == match idp
                                case Pending => TryAgain(false)
                                case SlowDown => TryAgain(true)
                                case Denied => Terminal
                                case Error => BadGateway
                                case Complete(loginOk, mintOk) => if loginOk && mintOk then Enrolled else Terminal
      ensures flows.Keys == if gate.Allowed? && (idp.Denied? || idp.Complete?) then old(flows).Keys - {id} else old(flows).Keys
      ensures forall f <- flows :: f != id ==> flows[f] == old(flows)[f]
      ensures id in flows && gate.Allowed? ==>
                flows[id] == old(flows)[id].(lastPolledAt := now,
                  interval := old(flows)[id].interval + if idp.SlowDown? && raises then SLOW_DOWN else 0)
      ensures id in flows && !gate.Allowed? ==> flows[id] == old(flows)[id]
    {
      gate := TryPoll(id, now);
      if gate.NotFound? { return Terminal, gate; }
      if gate.Paced? { return TryAgain(true), gate; }
      match idp
      case Error => answer := BadGateway;
      case Pending => answer := TryAgain(false);
      case SlowDown =>
        if raises { BumpInterval(id, SLOW_DOWN); }
        answer := TryAgain(true);
      case Denied =>
        flows := flows - {id};
        answer := Terminal;
      case Complete(loginOk, mintOk) =>
        flows := flows - {id};
        answer := if loginOk && mintOk then Enrolled else Terminal;
    }
  }

  // ---------------------------------------------------------------- the client

  datatype Result = Success | Expired | TooManyBadGateways | Failed | Cancelled

  /** One poll: the instant it reached the server, whether the wait before it was cut
      short by the deadline, the client's interval and the flow's stored one before it,
      the server's gate if it got there, and the answer. */
  datatype Record = Record(at: nat, shortened: bool, interval: int, stored: Option<int>, gate: Option<Gate>, answer: Answer) {
    /** The client waits at least as long as the flow asks. */
    predicate InStep() { interval >= 5 && (stored.Some? ==> stored.value <= interval) }

    /** A poll after a full wait that leaves the loop going. */
    predicate Regular() { !shortened && gate != Some(Paced) && (answer.TryAgain? || answer.BadGateway?) }
  }

  /** How much longer the client waits after this answer than before it. */
  function Bump(answer: Answer): int {
    if answer == TryAgain(true) || answer.BadGateway? then 5 else 0
  }

  /** Each interval is the one before, raised when asked to slow down or when a gateway
      answered; and a poll that is not cut short comes an interval after the one before. */
  ghost predicate Follows(trace: seq<Record>) {
    forall k :: 0 < k < |trace| ==>
      && trace[k].interval == trace[k - 1].interval + Bump(trace[k - 1].answer)
      && (!trace[k].shortened ==> trace[k].at >= trace[k - 1].at + trace[k].interval * NS)
  }

  /** What the next poll will have to keep. */
  ghost predicate Expects(trace: seq<Record>, first: int, secs: int, earliest: int) {
    && Follows(trace)
    && (trace != [] ==> trace[0].interval == first)
    && if trace == [] then secs == first
       else
         var last := trace[|trace| - 1];
         secs == last.interval + Bump(last.answer) && earliest >= last.at + secs * NS
  }

  lemma OneMoreFollows(trace: seq<Record>, first: int, secs: int, earliest: int, last: Record)
    requires Expects(trace, first, secs, earliest) && last.interval == secs && (last.shortened || last.at >= earliest)
    ensures Expects(trace + [last], first, secs + Bump(last.answer), last.at + (secs + Bump(last.answer)) * NS)
  {
    var longer := trace + [last];
    assert forall k :: 0 <= k < |trace| ==> longer[k] == trace[k];
  }

  predicate Gateways(trace: seq<Record>, n: nat) {
    n <= |trace| && forall k :: |trace| - n <= k < |trace| ==> trace[k].answer.BadGateway?
  }

  lemma OneMoreGateway(trace: seq<Record>, last: Record, n: nat)
    ensures Gateways(trace + [last], n + 1) <==> last.answer.BadGateway? && Gateways(trace, n)
  {
    var longer := trace + [last];
    assert longer[|trace|] == last;
    assert forall k :: 0 <= k < |trace| ==> longer[k] == trace[k];
  }

  /** What the environment does around one poll: how long messages and the sleep take
      beyond what was asked, whether a gateway answers in the server's place before or
      after the request got through, and what the provider says. */
  datatype Weather = Weather(out: nat, reaches: bool, idp: Provider, raises: bool, garbled: bool, back: nat, cancelled: bool, late: nat)

  /** Whole seconds pass between two instants at least as many as lie between them. */
  lemma SecondsBetween(a: nat, b: nat, n: nat)
    requires b >= a + n * NS
    ensures b / NS - a / NS >= n
  {
    assert b - n * NS >= a;
    assert (b - n * NS) / NS == b / NS - n;
  }

  /** One poll through the weather, as far as it matters for pacing: the flow is stamped
      exactly when it was allowed, and its interval grows only if the answer makes the
      client's grow as much. */
  method SendPoll(server: DeviceFlows, id: FlowId, at: nat, w: Weather) returns (answer: Answer, gate: Option<Gate>)
    modifies server
    ensures id in server.flows ==> id in old(server.flows)
    ensures id in server.flows ==>
              var f, was := server.flows[id], old(server.flows)[id];
              && f.lastPolledAt == (if gate == Some(Allowed) then at / NS else was.lastPolledAt)
              && f.interval <= was.interval + (if answer == TryAgain(true) || answer.BadGateway? then SLOW_DOWN else 0)
    ensures gate == Some(Paced) ==>
              id in old(server.flows) && at / NS - old(server.flows)[id].lastPolledAt < old(server.flows)[id].interval
  {
    gate, answer := None, BadGateway;
    if w.reaches {
      var a, g := server.Poll(id, at / NS, w.idp, w.raises);
      gate := Some(g);
      if !w.garbled { answer := a; }
    }
  }

  /** The client goes on: every poll so far was in step and left the loop going, the
      interval and the instant of the next one follow, and the last `gateways` answers,
      no more, were a gateway's. */
  ghost predicate Going(trace: seq<Record>, first: int, secs: int, earliest: int, gateways: nat) {
    && Expects(trace, first, secs, earliest)
    && (forall k :: 0 <= k < |trace| ==> trace[k].InStep() && trace[k].Regular())
    && Gateways(trace, gateways) && !Gateways(trace, gateways + 1)
  }

  lemma OneMoreRecord(trace: seq<Record>, first: int, secs: int, earliest: int, gateways: nat, last: Record)
    requires Going(trace, first, secs, earliest, gateways) && gateways < MAX_BAD_GATEWAY
    requires last.InStep() && last.interval == secs && (last.shortened || last.at >= earliest)
    ensures var longer := trace + [last]; var n := if last.answer.BadGateway? then gateways + 1 else 0;
      && Follows(longer) && longer[0].interval == first
      && (forall k :: 0 <= k < |longer| ==> longer[k].InStep())
      && (forall k :: 0 <= k < |trace| ==> longer[k].Regular())
      && (Gateways(longer, MAX_BAD_GATEWAY) <==> n == MAX_BAD_GATEWAY)
      && (last.Regular() ==> Going(longer, first, secs + Bump(last.answer), last.at + (secs + Bump(last.answer)) * NS, n))
  {
    OneMoreFollows(trace, first, secs, earliest, last);
    OneMoreGateway(trace, last, gateways);
    OneMoreGateway(trace, last, gateways + 1);
    OneMoreGateway(trace, last, MAX_BAD_GATEWAY - 1);
    var longer := trace + [last];
    assert longer[|trace|] == last;
    assert forall k :: 0 <= k < |trace| ==> longer[k] == trace[k];
    FewerGateways(trace, gateways + 1, MAX_BAD_GATEWAY - 1);
    OneMoreGateway(trace, last, 0);
  }

  lemma FewerGateways(trace: seq<Record>, n: nat, m: nat)
    requires !Gateways(trace, n)
    ensures n <= m ==> !Gateways(trace, m)
  {
  }

  /** The flow asks for no more than the client keeps, and after a full wait is due. */
  ghost predicate InPace(flows: Flows, id: FlowId, secs: int, now: nat, shortened: bool) {
    id in flows ==>
      && flows[id].interval <= secs && flows[id].lastPolledAt <= now / NS
      && (!shortened ==> now / NS - flows[id].lastPolledAt >= flows[id].interval)
  }

  lemma StaysInPace(before: Flows, after: Flows, id: FlowId, secs: int, now: nat, shortened: bool, at: nat, bump: int, next: nat, cut: bool)
    requires InPace(before, id, secs, now, shortened) && now <= at <= next && secs >= 0 && bump >= 0
    requires id in after ==>
               && id in before && after[id].interval <= before[id].interval + bump
               && after[id].lastPolledAt in {before[id].lastPolledAt, at / NS}
    requires !cut ==> next >= at + (secs + bump) * NS
    ensures InPace(after, id, secs + bump, next, cut)
  {
    if !cut { SecondsBetween(at, next, secs + bump); }
    SecondsBetween(now, at, 0);
    SecondsBetween(at, next, 0);
  }

  /** How many polls fit before the deadline. */
  ghost predicate InBudget(polls: nat, clock: nat, expiresIn: int, now: nat, shortened: bool) {
    if shortened then polls > 0 && now >= clock + expiresIn * NS && MIN_INTERVAL * (polls - 1) < expiresIn
    else MIN_INTERVAL * polls <= expiresIn && now >= clock + MIN_INTERVAL * polls * NS
  }

  /** A sleep until the next poll, or until the deadline if that comes first. */
  method Wait(now: nat, secs: nat, deadline: int, late: nat) returns (next: nat, cut: bool)
    requires now < deadline
    ensures cut <==> deadline - now < secs * NS
    ensures next == (if cut then deadline else now + secs * NS) + late
  {
    var wait := secs * NS;
    cut := deadline - now < wait;
    if cut { wait := deadline - now; }
    next := now + wait + late;
  }

  lemma StaysInBudget(polls: nat, clock: nat, expiresIn: int, now: nat, after: nat, next: nat, cut: bool, secs: nat)
    requires InBudget(polls, clock, expiresIn, now, false) && now <= after < clock + expiresIn * NS && secs >= MIN_INTERVAL
    requires cut <==> clock + expiresIn * NS - after < secs * NS
    requires next >= if cut then clock + expiresIn * NS else after + secs * NS
    ensures InBudget(polls + 1, clock, expiresIn, next, cut)
  {
  }

  /** What a trace shows at any time: it starts with this interval, follows, is in step,
      and only its last poll may have ended the loop. */
  ghost predicate Shows(trace: seq<Record>, first: int) {
    && Follows(trace) && (trace != [] ==> trace[0].interval == first)
    && (forall k :: 0 <= k < |trace| ==> trace[k].InStep())
    && (forall k :: 0 <= k < |trace| - 1 ==> trace[k].Regular())
    && (trace != [] && trace[|trace| - 1].gate == Some(Paced) ==> |trace| > 1 && trace[|trace| - 1].shortened)
  }

  /** One turn up to the answer, with the counters after it. */
  method PollOnce(server: DeviceFlows, id: FlowId, w: Weather, now: nat, shortened: bool, gateways: nat, secs: int,
                  ghost trace: seq<Record>, ghost first: int, ghost earliest: int)
      returns (at: nat, answer: Answer, n: nat, wait: int, ghost longer: seq<Record>)
    requires Going(trace, first, secs, earliest, gateways) && gateways < MAX_BAD_GATEWAY && secs >= MIN_INTERVAL
    requires InPace(server.flows, id, secs, now, shortened) && (shortened || now >= earliest) && (shortened ==> trace != [])
    modifies server
    ensures at == now + w.out && wait == secs + Bump(answer) && n == if answer.BadGateway? then gateways + 1 else 0
    ensures |longer| == |trace| + 1 && longer[|trace|].answer == answer && Shows(longer, first)
    ensures Gateways(longer, MAX_BAD_GATEWAY) <==> n == MAX_BAD_GATEWAY
    ensures !shortened && (answer.TryAgain? || answer.BadGateway?) ==> Going(longer, first, wait, at + wait * NS, n)
    ensures id in server.flows ==>
              && id in old(server.flows) && server.flows[id].interval <= old(server.flows)[id].interval + Bump(answer)
              && server.flows[id].lastPolledAt in {old(server.flows)[id].lastPolledAt, at / NS}
  {
    ghost var stored := if id in server.flows then Some(server.flows[id].interval) else None;
    at := now + w.out;
    var gate;
    answer, gate := SendPoll(server, id, at, w);
    ghost var last := Record(at, shortened, secs, stored, gate, answer);
    SecondsBetween(now, at, 0);
    OneMoreRecord(trace, first, secs, earliest, gateways, last);
    longer := trace + [last];
    n, wait := 0, secs;
    if answer.BadGateway? {
      n, wait := gateways + 1, secs + SLOW_DOWN;
    } else if answer == TryAgain(true) {
      wait := secs + SLOW_DOWN;
    }
  }

  /** DeviceCodeEnroll from the answer to its start request on, against this server and
      in any weather. */
  method DeviceCodeEnroll(server: DeviceFlows, id: FlowId, expiresIn: int, interval: int, clock: nat, weather: nat -> Weather)
      returns (r: Result, ghost trace: seq<Record>)
    requires id in server.flows && server.flows[id].lastPolledAt == 0
    requires server.flows[id].interval <= clock / NS
    requires server.flows[id].interval <= (if interval > MIN_INTERVAL then interval else MIN_INTERVAL)
    modifies server
    ensures Shows(trace, if interval > 5 then interval else 5)
    ensures expiresIn <= 0 ==> trace == [] && r == Expired
    ensures expiresIn > 0 ==> 1 <= |trace| <= 2 + expiresIn / 5
    ensures r.Success? <==> trace != [] && trace[|trace| - 1].answer.Enrolled?
    ensures r.Failed? <==> trace != [] && trace[|trace| - 1].answer.Terminal?
    ensures r.TooManyBadGateways? <==> Gateways(trace, 3)
  {
    trace := [];
    if expiresIn <= 0 { return Expired, trace; }
    var deadline := clock + expiresIn * NS;
    var secs := if interval > MIN_INTERVAL then interval else MIN_INTERVAL;
    var now, shortened := clock, false;
    var gateways, polls := 0, 0;
    ghost var first, earliest: int := secs, clock;
    while true
      invariant polls == |trace| && now >= clock && secs >= MIN_INTERVAL && gateways < MAX_BAD_GATEWAY
      invariant InBudget(polls, clock, expiresIn, now, shortened)
      invariant InPace(server.flows, id, secs, now, shortened)
      invariant Going(trace, first, secs, earliest, gateways) && (shortened || now >= earliest)
      decreases 2 + expiresIn / MIN_INTERVAL - |trace|
    {
      ghost var flows, before := server.flows, secs;
      var w := weather(polls);
      var at, answer;
      at, answer, gateways, secs, trace := PollOnce(server, id, w, now, shortened, gateways, secs, trace, first, earliest);
      earliest, polls := at + secs * NS, polls + 1;
      if answer.Enrolled? { return Success, trace; }
      if answer.Terminal? { return Failed, trace; }
      if gateways >= MAX_BAD_GATEWAY { return TooManyBadGateways, trace; }
      var after := at + w.back;
      if after >= deadline { return Expired, trace; }
      if w.cancelled { return Cancelled, trace; }
      var next, cut := Wait(after, secs, deadline, w.late);
      StaysInPace(flows, server.flows, id, before, now, shortened, at, Bump(answer), next, cut);
      StaysInBudget(polls - 1, clock, expiresIn, now, after, next, cut, secs);
      now, shortened := next, cut;
    }
  }
}
