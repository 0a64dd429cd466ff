/**
 * The scenario engine's runs side by side (internal/scenario/engine.go): starting, releasing and
 * aborting runs from any number of requests while each run's own goroutine goes on. Each event is
 * what one of them does between two points at which another may interfere.
 */
module ScenarioEngine {
  import opened ScenarioSteps

  // Where a run's goroutine is in execute.
  datatype Stage =
    | Unarmed            // registered; its cancel function is not stored yet
    | Top(i: nat)        // about to take step i
    | Waiting(i: nat)    // paused before step i
    | Check(i: nat)      // about to look whether it is cancelled before step i
    | InStep(i: nat)     // that look let it through to step i, whether or not the step has begun
    | Cleaning(verdict: Verdict)
    | Gone

  // One run; `nexts`, `aborts` and `releases` count what its requests and its pauses did with the token.
  datatype Run = Run(
    stepMode: bool, steps: nat, status: Status, stage: Stage, token: bool, cancelled: bool,
    nexts: nat, aborts: nat, releases: nat)

  datatype State = State(defs: map<string, nat>, runs: map<string, Run>)

  datatype Event =
    | Reload(defs: map<string, nat>)
    | Start(scenario: string, id: string, stepMode: bool)
    | Arm(id: string)
    | Next(id: string)
    | Abort(id: string)
    | Tick(id: string, failed: bool)

  datatype Answer = Started | UnknownScenario | StillLive | UnknownRun | Done

  predicate Live(r: Run) { !r.status.Ended? }

  predicate AnyLive(s: State) { exists id | id in s.runs :: Live(s.runs[id]) }

  function StartAnswer(s: State, scenario: string): Answer {
    if scenario !in s.defs then UnknownScenario else if AnyLive(s) then StillLive else Started
  }

  function NewRun(stepMode: bool, steps: nat): Run {
    Run(stepMode, steps, Active, Unarmed, false, false, 0, 0, 0)
  }

  // What the goroutine does next; a paused one does nothing until there is a token or it is cancelled. With
  // both it takes the token here, where the source may do without: only the counts of tokens differ.
  function Ticked(r: Run, failed: bool): Run {
    match r.stage
    case Unarmed => r
    case Top(i) =>
      if i >= r.steps then r.(stage := Cleaning(if r.cancelled then RunAborted else RunPassed))
      else if r.stepMode && i > 0 then r.(status := Paused, stage := Waiting(i))
      else r.(stage := Check(i))
    case Waiting(i) =>
      if r.token then r.(status := Active, stage := Check(i), token := false, releases := r.releases + 1)
      else if r.cancelled then r.(status := Active, stage := Check(i))
      else r
    case Check(i) => r.(stage := if r.cancelled then Cleaning(RunAborted) else InStep(i))
    case InStep(i) => r.(stage := if failed then Cleaning(RunFailed) else Top(i + 1))
    case Cleaning(v) => r.(status := Ended(v), stage := Gone)
    case Gone => r
  }

  function Apply(s: State, e: Event): State {
    match e
    case Reload(defs) => s.(defs := defs)
    case Start(scenario, id, stepMode) =>
      if StartAnswer(s, scenario) == Started then s.(runs := s.runs[id := NewRun(stepMode, s.defs[scenario])]) else s
    case _ => if e.id in s.runs then s.(runs := s.runs[e.id := Touched(s.runs[e.id], e)]) else s
  }

  // Putting the token of a run that has one already changes nothing.
  function Touched(r: Run, e: Event): Run {
    match e
    case Arm(_) => if r.stage == Unarmed then r.(stage := Top(0)) else r
    case Next(_) => r.(token := true, nexts := r.nexts + 1)
    case Abort(_) => r.(token := true, aborts := r.aborts + 1, cancelled := r.cancelled || r.stage != Unarmed)
    case Tick(_, failed) => Ticked(r, failed)
    case _ => r
  }

  function After(s: State, events: seq<Event>): State {
    if events == [] then s else Apply(After(s, events[..|events| - 1]), events[|events| - 1])
  }

  // ---- one run at a time -----------------------------------------------------------------

  ghost predicate OneLive(s: State) {
    forall a, b | a in s.runs && b in s.runs && Live(s.runs[a]) && Live(s.runs[b]) :: a == b
  }

  // A run's status tells where its goroutine is.
  ghost predicate Sound(r: Run) {
    && (r.status == Paused <==> r.stage.Waiting?)
    && (r.status.Ended? <==> r.stage == Gone)
    && r.releases + (if r.token then 1 else 0) <= r.nexts + r.aborts
    && (r.stage == Unarmed ==> !r.cancelled)
    && (r.stage.Waiting? || r.stage.Check? || r.stage.InStep? ==> r.stage.i < r.steps)
    && (r.stage.Top? ==> r.stage.i <= r.steps)
    && (r.stage.Waiting? ==> r.stepMode && r.stage.i > 0)
    && (r.stepMode && !r.cancelled ==> r.releases == Released(r.stage, r.releases))
  }

  // How often a run in step mode must have been released to be here: once for every step behind the first.
  function Released(stage: Stage, otherwise: nat): nat {
    match stage
    case Unarmed => 0
    case Top(i) => if i == 0 then 0 else i - 1
    case Waiting(i) => if i == 0 then 0 else i - 1
    case Check(i) => i
    case InStep(i) => i
    case _ => otherwise
  }

  ghost predicate Inv(s: State) { OneLive(s) && forall id | id in s.runs :: Sound(s.runs[id]) }

  lemma {:induction false} TouchedSound(r: Run, e: Event)
    requires Sound(r)
    ensures Sound(Touched(r, e)) && (Live(Touched(r, e)) ==> Live(r))
  {
  }

  lemma {:induction false} ApplyKeepsInv(s: State, e: Event)
    requires Inv(s)
    ensures Inv(Apply(s, e))
  {
    if !e.Reload? && !e.Start? && e.id in s.runs {
      TouchedSound(s.runs[e.id], e);
    }
  }

  // Over every interleaving at most one run is running or paused.
  lemma {:induction false} AtMostOneLive(s: State, events: seq<Event>)
    requires Inv(s)
    ensures Inv(After(s, events))
    ensures var runs := After(s, events).runs;
      forall a, b | a in runs && b in runs && !runs[a].status.Ended? && !runs[b].status.Ended? :: a == b
  {
    if events != [] {
      AtMostOneLive(s, events[..|events| - 1]);
      ApplyKeepsInv(After(s, events[..|events| - 1]), events[|events| - 1]);
    }
  }

  // A run in step mode that nobody cancelled has been released once for every step it was let through to behind
  // the first, whatever happened.
  lemma {:induction false} StepsAreReleased(s: State, events: seq<Event>, id: string)
    requires Inv(s) && id in After(s, events).runs
    ensures var r := After(s, events).runs[id];
      r.stepMode && !r.cancelled && (r.stage.Check? || r.stage.InStep?) ==> r.stage.i <= r.nexts + r.aborts
  {
    AtMostOneLive(s, events);
    assert Sound(After(s, events).runs[id]);
  }

  // A paused run stays where it is without a token, unless it is cancelled, and goes on with one.
  lemma {:induction false} PauseHolds(r: Run, failed: bool)
    requires r.stage.Waiting?
    ensures Ticked(r, failed) == r <==> !r.token && !r.cancelled
    ensures r.token || r.cancelled ==> Ticked(r, failed).stage == Check(r.stage.i) && Ticked(r, failed).status == Active
  {
  }

  // A start is accepted exactly when the scenario is known and every run has ended.
  lemma {:induction false} StartAcceptedIff(s: State, scenario: string)
    ensures StartAnswer(s, scenario) == Started
      <==> scenario in s.defs && forall id | id in s.runs :: s.runs[id].status.Ended?
    ensures StartAnswer(s, scenario) == UnknownScenario <==> scenario !in s.defs
    ensures forall defs :: Apply(s, Reload(defs)) == State(defs, s.runs)
  {
  }

  // Runs read back after a restart have all ended, so an engine begins in order.
  lemma {:induction false} RestartIsInOrder(s: State)
    requires forall id | id in s.runs :: s.runs[id].status.Ended? && s.runs[id].stage == Gone && !s.runs[id].token && s.runs[id].releases == 0
    ensures Inv(s)
  {
  }

  // ---- aborting --------------------------------------------------------------------------

  // Stages from which no further step begins and the run cannot pass.
  ghost predicate Doomed(r: Run, i: int) {
    && r.cancelled
    && match r.stage
       case InStep(j) => j == i
       case Cleaning(v) => v == RunAborted || (v == RunFailed && i >= 0)
       case Gone => r.status == Ended(RunAborted) || (r.status == Ended(RunFailed) && i >= 0)
       case Unarmed => false
       case _ => true
  }

  lemma {:induction false} DoomedStays(s: State, e: Event, id: string, i: int)
    requires id in s.runs && Doomed(s.runs[id], i) && (e.Start? ==> e.id != id)
    ensures id in Apply(s, e).runs && Doomed(Apply(s, e).runs[id], i)
  {
  }

  // The step a run has been let through to, or -1.
  function StepOf(r: Run): int { if r.stage.InStep? then r.stage.i else -1 }

  // An abort that finds the run between steps, paused or in a step is final: whatever happens after it,
  // no further step is let through, and the run ends aborted unless the step it was let through to fails.
  lemma {:induction false} AbortIsFinal(s: State, id: string, events: seq<Event>)
    requires id in s.runs && !s.runs[id].stage.Unarmed? && !s.runs[id].stage.Cleaning? && !s.runs[id].stage.Gone?
    requires forall e | e in events && e.Start? :: e.id != id
    ensures id in After(Apply(s, Abort(id)), events).runs
    ensures Doomed(After(Apply(s, Abort(id)), events).runs[id], StepOf(s.runs[id]))
  {
    if events != [] {
      var n := |events| - 1;
      assert events[n] in events;
      AbortIsFinal(s, id, events[..n]);
      DoomedStays(After(Apply(s, Abort(id)), events[..n]), events[n], id, StepOf(s.runs[id]));
    }
  }

  // An abort finds the run with its cancel function stored and not already on its way to passing.
  predicate Stoppable(r: Run) {
    match r.stage
    case Unarmed => false
    case Cleaning(v) => v != RunPassed
    case Gone => r.status != Ended(RunPassed)
    case _ => true
  }

  ghost predicate NoRestart(events: seq<Event>, id: string) { forall e | e in events && e.Start? :: e.id != id }

  // No step but the one it was in, and no passing.
  ghost predicate Halted(s: State, id: string, i: int) {
    && id in s.runs
    && var r := s.runs[id];
      !(r.stage.InStep? && r.stage.i != i) && r.stage != Cleaning(RunPassed) && r.status != Ended(RunPassed)
  }

  // What stays so in a run that was stopped.
  ghost predicate Stopped(r: Run, i: int) {
    match r.stage
    case Unarmed => false
    case InStep(j) => r.cancelled && j == i && !r.status.Ended?
    case Cleaning(v) => v != RunPassed && !r.status.Ended?
    case Gone => r.status != Ended(RunPassed)
    case _ => r.cancelled && !r.status.Ended?
  }

  lemma {:induction false} StoppedStays(s: State, e: Event, id: string, i: int)
    requires id in s.runs && Stopped(s.runs[id], i) && (e.Start? ==> e.id != id)
    ensures id in Apply(s, e).runs && Stopped(Apply(s, e).runs[id], i)
  {
  }

  lemma {:induction false} StoppedAfter(s: State, events: seq<Event>, id: string, i: int)
    requires id in s.runs && Stopped(s.runs[id], i) && NoRestart(events, id)
    ensures id in After(s, events).runs && Stopped(After(s, events).runs[id], i)
  {
    if events != [] {
      var n := |events| - 1;
      assert events[n] in events;
      StoppedAfter(s, events[..n], id, i);
      StoppedStays(After(s, events[..n]), events[n], id, i);
    }
  }

  lemma {:induction false} AfterMore(s: State, events: seq<Event>, e: Event)
    ensures After(s, events + [e]) == Apply(After(s, events), e)
  {
    assert (events + [e])[..|events|] == events;
  }

  // Whatever happens after an abort, no further step is let through and the run does not pass, exactly when the
  // abort finds it stoppable.
  lemma {:induction false} AbortStopsIff(s: State, id: string)
    requires id in s.runs && Sound(s.runs[id])
    ensures (forall events | NoRestart(events, id) :: Halted(After(Apply(s, Abort(id)), events), id, StepOf(s.runs[id])))
      <==> Stoppable(s.runs[id])
  {
    var t, i := Apply(s, Abort(id)), StepOf(s.runs[id]);
    if Stoppable(s.runs[id]) {
      forall events | NoRestart(events, id) ensures Halted(After(t, events), id, i) {
        StoppedAfter(t, events, id, i);
      }
    } else {
      var events := Escape(s, id, t);
      assert NoRestart(events, id) && !Halted(After(t, events), id, i);
    }
  }

  // How a run gets past an abort that finds it not stoppable: it has passed already, or it is armed afterwards.
  lemma {:induction false} Escape(s: State, id: string, t: State) returns (events: seq<Event>)
    requires id in s.runs && Sound(s.runs[id]) && !Stoppable(s.runs[id]) && t == Apply(s, Abort(id))
    ensures NoRestart(events, id) && !Halted(After(t, events), id, StepOf(s.runs[id]))
  {
    if s.runs[id].stage != Unarmed { return []; }
    var armed := [] + [Arm(id)];
    OnRun(t, [], Arm(id), id);
    OnRun(t, armed, Tick(id, false), id);
    OnRun(t, armed + [Tick(id, false)], Tick(id, false), id);
    events := if s.runs[id].steps == 0 then armed + [Tick(id, false)] else armed + [Tick(id, false)] + [Tick(id, false)];
  }

  lemma {:induction false} OnRun(s: State, events: seq<Event>, e: Event, id: string)
    requires id in After(s, events).runs && !e.Reload? && !e.Start? && e.id == id
    ensures id in After(s, events + [e]).runs
    ensures After(s, events + [e]).runs[id] == Touched(After(s, events).runs[id], e)
  {
    AfterMore(s, events, e);
  }

  // How many moves of its goroutine the two runs below are given.
  const MOVES: nat := 5

  function Ticks(n: nat): seq<Event> { if n == 0 then [] else Ticks(n - 1) + [Tick("r", false)] }

  // What undisturbed moves that all succeed make of a run.
  function TickedTimes(r: Run, n: nat): Run { if n == 0 then r else Ticked(TickedTimes(r, n - 1), false) }

  lemma {:induction false} TicksOnRun(s: State, events: seq<Event>, n: nat)
    requires "r" in After(s, events).runs
    ensures "r" in After(s, events + Ticks(n)).runs
    ensures After(s, events + Ticks(n)).runs["r"] == TickedTimes(After(s, events).runs["r"], n)
  {
    if n == 0 {
      assert events + [] == events;
    } else {
      TicksOnRun(s, events, n - 1);
      OnRun(s, events + Ticks(n - 1), Tick("r", false), "r");
      assert events + Ticks(n) == (events + Ticks(n - 1)) + [Tick("r", false)];
    }
  }

  lemma {:induction false} BegunTicked(s: State, stepMode: bool, steps: nat, n: nat)
    requires s == State(map["x" := steps], map[])
    ensures var t := After(s, Begun("x", stepMode) + Ticks(n));
      "r" in t.runs && t.runs["r"] == TickedTimes(Run(stepMode, steps, Active, Top(0), true, false, 0, 1, 0), n)
  {
    BegunRun(s, "x", stepMode);
    TicksOnRun(s, Begun("x", stepMode), n);
  }

  // A two-step run in step mode, aborted before its cancel function is stored, leaves its pause though nobody
  // released it and is not cancelled;
  lemma {:induction false} AbortReleasesPause()
    ensures var t := After(State(map["x" := 2], map[]), Begun("x", true) + Ticks(MOVES));
      "r" in t.runs && t.runs["r"] == Run(true, 2, Active, Check(1), false, false, 0, 1, 1)
  {
    BegunTicked(State(map["x" := 2], map[]), true, 2, MOVES);
    FiveTicks(Run(true, 2, Active, Top(0), true, false, 0, 1, 0));
  }

  // and a one-step run so aborted passes.
  lemma {:induction false} LostAbortPasses()
    ensures var t := After(State(map["x" := 1], map[]), Begun("x", false) + Ticks(MOVES));
      "r" in t.runs && t.runs["r"].status == Ended(RunPassed) && t.runs["r"].aborts == 1
  {
    BegunTicked(State(map["x" := 1], map[]), false, 1, MOVES);
    FiveTicks(Run(false, 1, Active, Top(0), true, false, 0, 1, 0));
  }

  lemma {:induction false} FiveTicks(r: Run)
    ensures TickedTimes(r, MOVES) == Ticked(Ticked(Ticked(Ticked(Ticked(r, false), false), false), false), false)
  {
    assert TickedTimes(r, 0) == r;
    assert TickedTimes(r, 1) == Ticked(r, false);
    assert TickedTimes(r, 2) == Ticked(Ticked(r, false), false);
    assert TickedTimes(r, 3) == Ticked(Ticked(Ticked(r, false), false), false);
    assert TickedTimes(r, 4) == Ticked(Ticked(Ticked(Ticked(r, false), false), false), false);
  }

  // Run r is started, aborted, and only then armed.
  function Begun(scenario: string, stepMode: bool): seq<Event> {
    [] + [Start(scenario, "r", stepMode)] + [Abort("r")] + [Arm("r")]
  }

  lemma {:induction false} BegunRun(s: State, scenario: string, stepMode: bool)
    requires scenario in s.defs && s.runs == map[]
    ensures After(s, Begun(scenario, stepMode))
      == s.(runs := map["r" := Run(stepMode, s.defs[scenario], Active, Top(0), true, false, 0, 1, 0)])
  {
    AfterMore(s, [], Start(scenario, "r", stepMode));
    AfterMore(s, [] + [Start(scenario, "r", stepMode)], Abort("r"));
    AfterMore(s, [] + [Start(scenario, "r", stepMode)] + [Abort("r")], Arm("r"));
  }

  // How far a cancelled run is from its end, in moves of its own.
  function Distance(r: Run): nat {
    match r.stage
    case Unarmed => 7
    case InStep(_) => 6
    case Top(_) => 5
    case Waiting(_) => 4
    case Check(_) => 3
    case Cleaning(_) => 2
    case Gone => 0
  }

  // An aborted run comes closer to its end with every move and is never stuck in a pause.
  lemma {:induction false} AbortedRunEnds(r: Run, failed: bool)
    requires r.cancelled && r.stage != Unarmed && r.stage != Gone
    ensures Distance(Ticked(r, failed)) < Distance(r)
  {
  }

  // ---- the goroutine and its steps -------------------------------------------------------

  // A run at the top of its loop goes on to its look, released from the pause before it.
  function ToLook(r: Run): (q: Run)
    ensures r.stage.Top? && r.stage.i < r.steps ==>
      q.stage == Check(r.stage.i) && q.steps == r.steps && q.cancelled == r.cancelled
  {
    var waiting := Ticked(r.(token := true), false);
    if waiting.stage.Waiting? then Ticked(waiting, false) else waiting
  }

  // A run driven from the top of its loop to its end, released from every pause, with `calm` more looks at
  // whether it is cancelled before it is.
  function Driven(r: Run, rest: seq<Script>, calm: nat): Run
    decreases |rest|
  {
    var q := if calm == 0 then r.(cancelled := true) else r;
    if rest == [] then Ticked(Ticked(q, false), false)
    else
      var next := Ticked(ToLook(q), false);
      if calm == 0 then Ticked(next, false)
      else if Outcome(rest[0]).status == Failed then Ticked(Ticked(next, true), false)
      else Driven(Ticked(next, false), rest[1..], calm - 1)
  }

  // It ends with the status that carrying out its steps gives.
  lemma {:induction false} GoroutineIsExecute(r: Run, rest: seq<Script>, calm: nat)
    requires r.stage.Top? && r.steps == r.stage.i + |rest| && !r.cancelled
    ensures Driven(r, rest, calm).status == Ended(FinalStatus(rest, calm)) && Driven(r, rest, calm).stage == Gone
    decreases |rest|
  {
    if rest != [] && calm > 0 && Outcome(rest[0]).status != Failed {
      GoroutineIsExecute(Ticked(Ticked(ToLook(r), false), false), rest[1..], calm - 1);
    }
  }

  // ---- the requests ----------------------------------------------------------------------

  class Engine {
    var defs: map<string, nat>
    var runs: map<string, Run>

    // An engine comes up with the runs on disk; those that were live are marked aborted.
    constructor (onDisk: map<string, Verdict>)
      ensures Inv(Now()) && !AnyLive(Now()) && runs.Keys == onDisk.Keys
      ensures forall id | id in runs :: runs[id].status == Ended(onDisk[id]) && runs[id].stage == Gone
    {
      defs := map[];
      runs := map id | id in onDisk :: Run(false, 0, Ended(onDisk[id]), Gone, false, true, 0, 0, 0);
    }

    ghost function Now(): State
      reads this
    {
      State(defs, runs)
    }

    method Start(scenario: string, id: string, stepMode: bool) returns (answer: Answer)
      modifies `runs
      ensures answer == StartAnswer(old(Now()), scenario)
      ensures Now() == Apply(old(Now()), Event.Start(scenario, id, stepMode))
      ensures answer == UnknownScenario <==> scenario !in defs
      ensures answer == Started <==> scenario in defs && forall k | k in old(runs) :: old(runs)[k].status.Ended?
      ensures runs == if answer == Started
        then old(runs)[id := Run(stepMode, defs[scenario], Active, Unarmed, false, false, 0, 0, 0)] else old(runs)
    {
      if scenario !in defs { return UnknownScenario; }
      var left := runs.Keys;
      while left != {}
        invariant left <= runs.Keys && runs == old(runs)
        invariant forall k | k in runs && k !in left :: !Live(runs[k])
        decreases left
      {
        var k :| k in left;
        if Live(runs[k]) { return StillLive; }
        left := left - {k};
      }
      runs := runs[id := NewRun(stepMode, defs[scenario])];
      answer := Started;
    }

    method Next(id: string) returns (answer: Answer)
      modifies `runs
      ensures answer == if id in old(runs) then Done else UnknownRun
      ensures Now() == Apply(old(Now()), Event.Next(id))
      ensures runs == if id !in old(runs) then old(runs)
        else old(runs)[id := old(runs)[id].(token := true, nexts := old(runs)[id].nexts + 1)]
    {
      if id !in runs { return UnknownRun; }
      runs := runs[id := runs[id].(token := true, nexts := runs[id].nexts + 1)];
      answer := Done;
    }

    method Abort(id: string) returns (answer: Answer)
      modifies `runs
      ensures answer == if id in old(runs) then Done else UnknownRun
      ensures Now() == Apply(old(Now()), Event.Abort(id))
      ensures id in old(runs) ==>
        && id in runs && runs[id].token
        && runs[id].cancelled == (old(runs)[id].cancelled || old(runs)[id].stage != Unarmed)
    {
      if id !in runs { return UnknownRun; }
      if runs[id].stage != Unarmed {
        runs := runs[id := runs[id].(cancelled := true)];
      }
      runs := runs[id := runs[id].(token := true, aborts := runs[id].aborts + 1)];
      answer := Done;
    }
  }
}
