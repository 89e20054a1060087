/**
 Bounded, abandonable sends: internal/email/apprise.go.

 Every call of Send is two threads, the caller and the goroutine it starts, sharing
 the slot semaphore, a one-place channel and an atomic flag. A run interleaves any
 number of calls step by step; a step that is not enabled changes nothing.
 */
module Mailer {
  import opened Options

  const MAX_IN_FLIGHT := 32

  type SendId = nat

  /** What the transport reported; a panic is a failure. */
  datatype Outcome = Delivered | Failed

  datatype Answer = Refused | Saturated | Reported(outcome: Outcome) | Abandoned

  /** `Leaving` has chosen the deadline, `Marked` has stored the flag. */
  datatype Caller = Waiting | Leaving | Marked | Returned(answer: Answer)

  /** `Over` still holds its slot; `Finished` has read the flag. */
  datatype Worker =
    | NotStarted | Sending
    | Over(outcome: Outcome) | Released(outcome: Outcome) | Published(outcome: Outcome) | Finished(outcome: Outcome)

  datatype Call = Call(caller: Caller, worker: Worker, done: Option<Outcome>, abandoned: bool, late: Option<Outcome>)

  datatype System = System(slots: nat, calls: map<SendId, Call>)

  datatype Step =
    | Start(s: SendId, sendable: bool)
    | TransportReturns(s: SendId, outcome: Outcome)
    | Release(s: SendId)
    | Publish(s: SendId)
    | ReadFlag(s: SendId)
    | Receive(s: SendId)
    | Expire(s: SendId)
    | MarkAbandoned(s: SendId)
    | Recheck(s: SendId)

  // --------------------------------------------------------------------- steps

  const INIT := System(0, map[])

  /** The guards, then the reservation, which is the check. */
  function StepStart(y: System, s: SendId, sendable: bool): System {
    if s in y.calls then y
    else if !sendable then y.(calls := y.calls[s := Call(Returned(Refused), NotStarted, None, false, None)])
    else if y.slots >= MAX_IN_FLIGHT then y.(calls := y.calls[s := Call(Returned(Saturated), NotStarted, None, false, None)])
    else System(y.slots + 1, y.calls[s := Call(Waiting, Sending, None, false, None)])
  }

  /** One step of a call's goroutine; its slot is freed by StepRelease only. */
  function WorkerStep(c: Call, step: Step): Call {
    match step
    case TransportReturns(_, o) => if c.worker.Sending? then c.(worker := Over(o)) else c
    case Release(_) => if c.worker.Over? then c.(worker := Released(c.worker.outcome)) else c
    case Publish(_) =>
      if c.worker.Released? && c.done.None?
      then c.(worker := Published(c.worker.outcome), done := Some(c.worker.outcome)) else c
    case ReadFlag(_) =>
      if c.worker.Published?
      then c.(worker := Finished(c.worker.outcome), late := if c.abandoned then Some(c.worker.outcome) else None) else c
    case _ => c
  }

  /** One step of the caller. Its first select may choose the deadline even when the
      channel holds a value. */
  function CallerStep(c: Call, step: Step): Call {
    match step
    case Receive(_) =>
      if c.caller.Waiting? && c.done.Some? then c.(caller := Returned(Reported(c.done.value)), done := None) else c
    case Expire(_) => if c.caller.Waiting? then c.(caller := Leaving) else c
    case MarkAbandoned(_) => if c.caller.Leaving? then c.(caller := Marked, abandoned := true) else c
    case Recheck(_) =>
      if !c.caller.Marked? then c
      else if c.done.Some? then c.(caller := Returned(Reported(c.done.value)), done := None)
      else c.(caller := Returned(Abandoned))
    case _ => c
  }

  function Next(y: System, step: Step): System {
    if step.Start? then StepStart(y, step.s, step.sendable)
    else if step.s !in y.calls then y
    else
      var c := y.calls[step.s];
      var frees := step.Release? && c.worker.Over? && y.slots > 0;
      System(if frees then y.slots - 1 else y.slots, y.calls[step.s := CallerStep(WorkerStep(c, step), step)])
  }

  function Run(steps: seq<Step>): System {
    if steps == [] then INIT else Next(Run(steps[..|steps| - 1]), steps[|steps| - 1])
  }

  // ---------------------------------------------------------------- invariants

  /** The transport's outcome, once it has returned. */
  function OutcomeOf(c: Call): Option<Outcome> {
    if c.worker.NotStarted? || c.worker.Sending? then None else Some(c.worker.outcome)
  }

  predicate Consistent(c: Call) {
    && (c.worker.NotStarted? <==> c.caller == Returned(Refused) || c.caller == Returned(Saturated))
    && (c.done.Some? ==> (c.worker.Published? || c.worker.Finished?) && c.done == OutcomeOf(c))
    && (c.worker.Published? || c.worker.Finished? ==>
          c.done.Some? || c.caller == Returned(Reported(c.worker.outcome)) || c.caller == Returned(Abandoned))
    && (c.caller.Returned? && c.caller.answer.Reported? ==>
          (c.worker.Published? || c.worker.Finished?) && OutcomeOf(c) == Some(c.caller.answer.outcome))
    && (c.caller.Returned? && c.caller.answer.Reported? ==> c.done.None?)
    && (c.abandoned <== c.caller == Returned(Abandoned))
    && (c.late.Some? ==> c.worker.Finished? && c.late == OutcomeOf(c))
    && (c.worker.Finished? && c.late.None? ==> c.done.Some? || c.caller == Returned(Reported(c.worker.outcome)))
    && (c.caller.Waiting? || c.caller.Leaving? ==> !c.abandoned)
    && (c.caller.Marked? ==> c.abandoned)
  }

  predicate Holds(c: Call) { c.worker.Sending? || c.worker.Over? }

  /** The calls whose goroutine has not released its slot. */
  function Holders(y: System): set<SendId> {
    set s | s in y.calls && Holds(y.calls[s])
  }

  ghost predicate Inv(y: System) {
    && (forall s <- y.calls :: Consistent(y.calls[s]))
    && y.slots == |Holders(y)| <= MAX_IN_FLIGHT
  }

  lemma CallStepKeepsConsistent(c: Call, step: Step)
    requires Consistent(c)
    ensures Consistent(CallerStep(WorkerStep(c, step), step))
  {
  }

  lemma StartKeepsInv(y: System, s: SendId, sendable: bool)
    requires Inv(y)
    ensures Inv(StepStart(y, s, sendable))
  {
    var z := StepStart(y, s, sendable);
    assert Holders(z) == if z.slots > y.slots then Holders(y) + {s} else Holders(y);
  }

  lemma HoldsUntilReleased(c: Call, step: Step)
    ensures Holds(CallerStep(WorkerStep(c, step), step)) == (Holds(c) && !(step.Release? && c.worker.Over?))
  {
  }

  lemma StepKeepsInv(y: System, step: Step)
    requires Inv(y)
    ensures Inv(Next(y, step))
  {
    var z, s := Next(y, step), step.s;
    if step.Start? {
      StartKeepsInv(y, s, step.sendable);
    } else if s in y.calls {
      CallStepKeepsConsistent(y.calls[s], step);
      HoldsUntilReleased(y.calls[s], step);
      var frees := step.Release? && y.calls[s].worker.Over?;
      assert frees ==> s in Holders(y);
      assert Holders(z) == if frees then Holders(y) - {s} else Holders(y);
    }
  }

  lemma {:induction false} RunKeepsInv(steps: seq<Step>)
    ensures Inv(Run(steps))
  {
    if steps != [] {
      RunKeepsInv(steps[..|steps| - 1]);
      StepKeepsInv(Run(steps[..|steps| - 1]), steps[|steps| - 1]);
    } else {
      assert Holders(INIT) == {};
    }
  }

  // -------------------------------------------------------------- main results

  /** No outcome is lost. Once the caller has returned and its goroutine is done, the
      transport's outcome was returned to the caller or logged as late; and whatever
      was returned or logged is that outcome. */
  lemma OutcomeIsNeverLost(steps: seq<Step>, s: SendId)
    ensures var y := Run(steps);
      s in y.calls && y.calls[s].caller.Returned? && y.calls[s].worker.Finished? ==>
        var c := y.calls[s];
        && (c.caller.answer == Reported(c.worker.outcome) || c.late == Some(c.worker.outcome))
        && (c.caller.answer.Reported? ==> c.caller.answer.outcome == c.worker.outcome)
        && (c.caller.answer.Abandoned? ==> c.late == Some(c.worker.outcome))
  {
    RunKeepsInv(steps);
  }

  /** The reserved slots are exactly the goroutines that have not released theirs, every
      open conversation among them, never more than 32; and an outcome anyone can see,
      in the channel, in the answer or in the log, leaves its slot free. */
  lemma SlotsCountConversations(steps: seq<Step>, s: SendId)
    ensures var y := Run(steps);
      && y.slots == |Holders(y)| <= MAX_IN_FLIGHT
      && (s in y.calls && y.calls[s].worker.Sending? ==> s in Holders(y))
      && (s in y.calls && (y.calls[s].done.Some? || y.calls[s].late.Some? || (y.calls[s].caller.Returned? && y.calls[s].caller.answer.Reported?))
          ==> s !in Holders(y))
  {
    RunKeepsInv(steps);
  }

  /** A send is refused as saturated only while 32 goroutines hold a slot. */
  lemma SaturatedOnlyWhenFull(steps: seq<Step>, s: SendId)
    requires s !in Run(steps).calls
    ensures Next(Run(steps), Start(s, true)).calls[s].caller == Returned(Saturated) <==> |Holders(Run(steps))| == MAX_IN_FLIGHT
  {
    RunKeepsInv(steps);
  }

  /** What a call answers at once, and what it starts: a mail that cannot be sent is
      refused, one that can starts exactly below the cap, and no other call is touched. */
  lemma StartOutcome(steps: seq<Step>, s: SendId, sendable: bool)
    requires s !in Run(steps).calls
    ensures var y, z := Run(steps), Next(Run(steps), Start(s, sendable));
      && z.calls.Keys == y.calls.Keys + {s} && (forall q <- y.calls :: z.calls[q] == y.calls[q])
      && !z.calls[s].abandoned && z.calls[s].done.None? && z.calls[s].late.None?
      && (if !sendable then z.calls[s].caller == Returned(Refused) && z.calls[s].worker.NotStarted? && z.slots == y.slots
          else if |Holders(y)| >= 32 then z.calls[s].caller == Returned(Saturated) && z.calls[s].worker.NotStarted? && z.slots == y.slots
          else z.calls[s].caller.Waiting? && z.calls[s].worker.Sending? && z.slots == y.slots + 1)
  {
    RunKeepsInv(steps);
  }

  /** A send whose transport returns before the deadline reports what the transport said,
      and gives its slot back. */
  lemma SendReports(steps: seq<Step>, s: SendId, outcome: Outcome)
    requires s !in Run(steps).calls && |Holders(Run(steps))| < 32
    ensures var y := Run(steps);
      var z := Next(Next(Next(Next(Next(y, Start(s, true)), TransportReturns(s, outcome)), Release(s)), Publish(s)), Receive(s));
      z.calls[s].caller == Returned(Reported(outcome)) && z.slots == y.slots
  {
    RunKeepsInv(steps);
    var b := Next(Next(Run(steps), Start(s, true)), TransportReturns(s, outcome));
    assert b.calls[s] == Call(Waiting, Over(outcome), None, false, None);
  }

  /** At its deadline the caller leaves in three steps of its own, whatever its goroutine
      has reached, and with the outcome exactly when it was already published. */
  lemma DeadlineReturns(steps: seq<Step>, s: SendId)
    requires s in Run(steps).calls && Run(steps).calls[s].caller.Waiting?
    ensures var y := Run(steps);
      Next(Next(Next(y, Expire(s)), MarkAbandoned(s)), Recheck(s)).calls[s].caller
        == Returned(if y.calls[s].worker.Published? || y.calls[s].worker.Finished?
                    then Reported(y.calls[s].worker.outcome) else Abandoned)
  {
    RunKeepsInv(steps);
    var c := Run(steps).calls[s];
    assert Consistent(c);
  }

  /** The goroutine never blocks on a caller that left, and its slot comes back: from a
      released slot it always publishes, reads the flag and ends. */
  lemma GoroutineEnds(steps: seq<Step>, s: SendId)
    requires s in Run(steps).calls && Run(steps).calls[s].worker.Over?
    ensures var y := Run(steps);
      var z := Next(Next(Next(y, Release(s)), Publish(s)), ReadFlag(s));
      z.calls[s].worker == Finished(y.calls[s].worker.outcome) && z.slots == y.slots - 1
  {
    RunKeepsInv(steps);
    var y := Run(steps);
    assert Consistent(y.calls[s]) && s in Holders(y);
  }
}
