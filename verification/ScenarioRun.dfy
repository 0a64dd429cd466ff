/**
 * One scenario run as the engine carries it out (internal/scenario/engine.go, execute and cleanup,
 * and internal/scenario/executor.go, runStep and trackPartition): the same run that ScenarioSteps
 * describes, done by updating the run's record and the stack step by step.
 */
module ScenarioRun {
  import opened Basics
  import opened Partitions
  import opened ScenarioSteps

  datatype Mode = Auto | StepByStep

  // The value of the run's parameter `cleanup`.
  datatype Param = Flag(value: bool) | AnythingElse

  // The running stack, as far as runs change it: the planes that are cut.
  class Stack {
    var cut: set<Pair>

    constructor (cut: set<Pair>)
      ensures this.cut == cut
    {
      this.cut := cut;
    }

    // A partition call takes effect as a whole or, when it answers an error, not at all.
    method Partition(node: Node, plane: Plane, on: bool, ok: bool)
      modifies this
      ensures cut == if ok then CutAfter(old(cut), [Switch(node, plane, on)]) else old(cut)
      ensures cut == if !ok then old(cut) else if on then old(cut) + {(node, plane)} else old(cut) - {(node, plane)}
    {
      assert [Switch(node, plane, on)][..0] == [];
      if ok {
        cut := if on then cut + {(node, plane)} else cut - {(node, plane)};
      }
    }
  }

  lemma {:induction false} Snoc(open: Open, cut: set<Pair>, made: seq<Switch>, s: Switch)
    ensures TrackedAll(open, made + [s]) == Tracked(TrackedAll(open, made), s)
    ensures CutAfter(cut, made + [s]) == CutAfter(CutAfter(cut, made), [s])
  {
    assert (made + [s])[..|made|] == made;
    assert [s][..0] == [];
  }

  lemma {:induction false} ConcatTracked(open: Open, a: seq<Switch>, b: seq<Switch>)
    ensures TrackedAll(open, a + b) == TrackedAll(TrackedAll(open, a), b)
    decreases |b|
  {
    if b == [] {
      assert a + b == a;
    } else {
      ConcatTracked(open, a, b[..|b| - 1]);
      assert (a + b)[..|a + b| - 1] == a + b[..|b| - 1];
    }
  }

  lemma {:induction false} ConcatCut(cut: set<Pair>, a: seq<Switch>, b: seq<Switch>)
    ensures CutAfter(cut, a + b) == CutAfter(CutAfter(cut, a), b)
    decreases |b|
  {
    if b == [] {
      assert a + b == a;
    } else {
      ConcatCut(cut, a, b[..|b| - 1]);
      assert (a + b)[..|a + b| - 1] == a + b[..|b| - 1];
    }
  }

  lemma {:induction false} Concat(open: Open, cut: set<Pair>, a: seq<Switch>, b: seq<Switch>)
    ensures TrackedAll(open, a + b) == TrackedAll(TrackedAll(open, a), b)
    ensures CutAfter(cut, a + b) == CutAfter(CutAfter(cut, a), b)
  {
    ConcatTracked(open, a, b);
    ConcatCut(cut, a, b);
  }

  // The first i calls were all answered and made these switches.
  ghost predicate Leads(plane: Plane, on: bool, calls: seq<Call>, i: nat, made: seq<Switch>) {
    i <= |calls| && (forall j | 0 <= j < i :: calls[j].ok) && made == Effects(plane, on, calls[..i])
  }

  lemma {:induction false} LeadsStep(plane: Plane, on: bool, calls: seq<Call>, i: nat, made: seq<Switch>)
    requires i < |calls| && Leads(plane, on, calls, i, made)
    ensures calls[i].ok ==> Leads(plane, on, calls, i + 1, made + [Switch(calls[i].node, plane, on)])
    ensures !calls[i].ok ==> !Answered(calls) && Effects(plane, on, calls) == made
  {
    EffectsStep(plane, on, calls, i);
  }

  lemma {:induction false} LeadsAll(plane: Plane, on: bool, calls: seq<Call>, made: seq<Switch>)
    requires Leads(plane, on, calls, |calls|, made)
    ensures Answered(calls) && Effects(plane, on, calls) == made
  {
    assert calls[..|calls|] == calls;
  }

  // The step a run points at when it has ended: the last begun, or the one a cancelled pause preceded.
  function LastStep(mode: Mode, verdict: Verdict, begun: nat, steps: nat): nat {
    if verdict == RunAborted && mode == StepByStep && begun < steps then begun
    else if begun == 0 then 0
    else begun - 1
  }

  // In step mode, a pause before every step but the first.
  function PausesTo(mode: Mode, last: nat): seq<nat> {
    if mode == Auto || last == 0 then [] else PausesTo(mode, last - 1) + [last]
  }

  lemma {:induction false} PausesAre(mode: Mode, last: nat)
    ensures |PausesTo(mode, last)| == if mode == Auto then 0 else last
    ensures forall k | 0 <= k < |PausesTo(mode, last)| :: PausesTo(mode, last)[k] == k + 1
  {
    if last > 0 { PausesAre(mode, last - 1); }
  }

  // What is cut once cleanup has healed what it can of the run's record.
  ghost function CutAfterRun(keeps: bool, heals: Pair -> bool, cut: set<Pair>, switches: seq<Switch>): set<Pair> {
    Healed(keeps, heals, CutAfter(cut, switches), TrackedAll(map[], switches))
  }

  ghost function Healed(keeps: bool, heals: Pair -> bool, cut: set<Pair>, open: Open): set<Pair> {
    set x | x in cut && (keeps || !IsOpen(open, x) || !heals(x))
  }

  // A run that does not keep its partitions leaves cut only what was cut before it, or would not heal.
  lemma {:induction false} RunLeavesNothingCut(heals: Pair -> bool, cut: set<Pair>, switches: seq<Switch>)
    ensures forall x | x in CutAfterRun(false, heals, cut, switches) && heals(x) :: x in cut
    ensures (forall x :: heals(x)) ==> CutAfterRun(false, heals, cut, switches) <= cut
  {
    forall x | x in CutAfterRun(false, heals, cut, switches) && heals(x) ensures x in cut {
      CutIsRecorded(cut, switches, x);
    }
  }

  ghost predicate AlwaysHeals(heals: Pair -> bool) { forall x :: heals(x) }

  // Cut now is only what was cut before, and what would not heal.
  ghost predicate HealedBut(now: set<Pair>, heals: Pair -> bool, before: set<Pair>) {
    forall x | x in now && heals(x) :: x in before
  }

  lemma {:induction false} CleanedUp(keeps: bool, heals: Pair -> bool, cut: set<Pair>, switches: seq<Switch>)
    ensures keeps ==> CutAfterRun(keeps, heals, cut, switches) == CutAfter(cut, switches)
    ensures !keeps ==> HealedBut(CutAfterRun(keeps, heals, cut, switches), heals, cut)
    ensures !keeps && AlwaysHeals(heals) ==> CutAfterRun(keeps, heals, cut, switches) <= cut
  {
    RunLeavesNothingCut(heals, cut, switches);
  }

  class Run {
    const mode: Mode
    const cleanup: Option<Param>
    var phase: Status
    var steps: seq<Step>
    var currentStep: nat
    var pauses: seq<nat>  // the steps a pause was announced before
    var findings: seq<Finding>
    var openPartitions: Open

    constructor (mode: Mode, cleanup: Option<Param>, names: seq<string>)
      ensures this.mode == mode && this.cleanup == cleanup && phase == Active
      ensures steps == Waiting(names) && currentStep == 0 && pauses == [] && findings == [] && openPartitions == map[]
    {
      this.mode, this.cleanup, phase := mode, cleanup, Active;
      steps, currentStep, pauses, findings, openPartitions := Waiting(names), 0, [], [], map[];
    }

    // trackPartition
    method TrackPartition(s: Switch)
      modifies `openPartitions
      ensures openPartitions == Tracked(old(openPartitions), s)
    {
      var planes := if s.node in openPartitions then openPartitions[s.node] else [];
      var kept: seq<Plane> := [];
      for i := 0 to |planes|
        invariant kept == Others(planes[..i], s.plane)
      {
        assert planes[..i + 1][..i] == planes[..i];
        if planes[i] != s.plane { kept := kept + [planes[i]]; }
      }
      assert planes[..|planes|] == planes;
      if s.on { kept := kept + [s.plane]; }
      assert kept == Others(planes, s.plane) + if s.on then [s.plane] else [];
      if kept == [] {
        openPartitions := openPartitions - {s.node};
      } else {
        openPartitions := openPartitions[s.node := kept];
      }
    }

    method SwitchNode(stack: Stack, s: Switch, answer: bool) returns (ok: bool)
      modifies `openPartitions, stack
      ensures ok == answer
      ensures openPartitions == if ok then Tracked(old(openPartitions), s) else old(openPartitions)
      ensures stack.cut == if ok then CutAfter(old(stack.cut), [s]) else old(stack.cut)
    {
      stack.Partition(s.node, s.plane, s.on, answer);
      ok := answer;
      if ok { TrackPartition(s); }
    }

    // The partition action.
    method SwitchNodes(stack: Stack, plane: Plane, on: bool, calls: seq<Call>) returns (ok: bool)
      modifies `openPartitions, stack
      ensures ok == Answered(calls)
      ensures openPartitions == TrackedAll(old(openPartitions), Effects(plane, on, calls))
      ensures stack.cut == CutAfter(old(stack.cut), Effects(plane, on, calls))
    {
      ghost var made: seq<Switch> := [];
      for i := 0 to |calls|
        invariant Leads(plane, on, calls, i, made)
        invariant openPartitions == TrackedAll(old(openPartitions), made)
        invariant stack.cut == CutAfter(old(stack.cut), made)
      {
        ghost var s := Switch(calls[i].node, plane, on);
        LeadsStep(plane, on, calls, i, made);
        Snoc(old(openPartitions), old(stack.cut), made, s);
        ok := SwitchNode(stack, Switch(calls[i].node, plane, on), calls[i].ok);
        if !ok { return; }
        made := made + [s];
      }
      LeadsAll(plane, on, calls, made);
      ok := true;
    }

    // The assertions of a step, up to the first that ends it.
    method CheckAll(name: string, asserts: seq<Assertion>) returns (assertions: seq<Assertion>, stopped: bool)
      modifies `findings
      ensures assertions == Recorded(asserts) && stopped == Stopped(asserts)
      ensures findings == old(findings) + FindingsIn(name, assertions)
    {
      assertions := [];
      for i := 0 to |asserts|
        invariant assertions == asserts[..i]
        invariant forall j | 0 <= j < i :: !Stops(asserts[j])
        invariant findings == old(findings) + FindingsIn(name, assertions)
      {
        assert asserts[..i + 1][..i] == asserts[..i];
        var a := asserts[i];
        assertions := assertions + [a];
        if !a.passed {
          if a.should {
            findings := findings + [Finding(name, a.check, a.detail)];
          } else {
            RecordedTo(asserts, i);
            return assertions, true;
          }
        }
      }
      RecordedWhole(asserts);
      stopped := false;
    }

    // runStep
    method RunStep(stack: Stack, s: Script) returns (r: Step)
      modifies `openPartitions, `findings, stack
      ensures r == Outcome(s)
      ensures findings == old(findings) + FindingsIn(s.name, r.assertions)
      ensures openPartitions == TrackedAll(old(openPartitions), Switches(s))
      ensures stack.cut == CutAfter(old(stack.cut), Switches(s))
    {
      if !s.resolves { return Step(s.name, Failed, []); }
      var ok;
      match s.action {
        case Partition(plane, on, calls) => ok := SwitchNodes(stack, plane, on, calls);
        case Other(answer) => ok := answer;
      }
      if !ok { return Step(s.name, Failed, []); }
      var assertions, stopped := CheckAll(s.name, s.asserts);
      r := Step(s.name, if stopped then Failed else Passed, assertions);
    }

    predicate Keeps() { cleanup == Some(Flag(false)) }

    // cleanup; `heals` answers each healing call.
    method Cleanup(stack: Stack, heals: Pair -> bool)
      modifies `openPartitions, stack
      ensures stack.cut == Healed(Keeps(), heals, old(stack.cut), old(openPartitions))
      ensures cleanup == Some(Flag(false)) ==> openPartitions == old(openPartitions) && stack.cut == old(stack.cut)
      ensures cleanup != Some(Flag(false)) ==>
        && openPartitions == map[]
        && forall x :: x in stack.cut <==> x in old(stack.cut) && !(IsOpen(old(openPartitions), x) && heals(x))
    {
      var keep := false;
      match cleanup {
        case Some(Flag(b)) => if !b { keep := true; }
        case _ =>
      }
      var open := openPartitions;
      if keep || open == map[] { return; }
      var left := open.Keys;
      while left != {}
        invariant left <= open.Keys
        invariant forall x :: x in stack.cut <==>
          x in old(stack.cut) && (x.0 in left || !IsOpen(open, x) || !heals(x))
        decreases left
      {
        var node :| node in left;
        HealNode(stack, node, open[node], heals);
        left := left - {node};
      }
      assert stack.cut == Healed(false, heals, old(stack.cut), open);
      openPartitions := map[];
    }

    // The step record before a run.
    ghost predicate Ready(scripts: seq<Script>)
      reads this
    {
      && |steps| == |scripts| && currentStep == 0 && pauses == [] && findings == [] && openPartitions == map[]
      && forall i | 0 <= i < |steps| :: steps[i] == Step(scripts[i].name, Pending, [])
    }

    // The steps in `done` are over and the others still wait.
    ghost predicate Reached(scripts: seq<Script>, done: seq<Step>)
      reads `steps, `findings
    {
      && |done| <= |scripts| == |steps| && steps[..|done|] == done && findings == FindingsOf(done)
      && (forall j | 0 <= j < |done| :: done[j].status != Pending)
      && forall j | |done| <= j < |steps| :: steps[j] == Step(scripts[j].name, Pending, [])
    }

    method OneStep(stack: Stack, scripts: seq<Script>, i: nat, ghost done: seq<Step>, ghost made: seq<Switch>, ghost cut: set<Pair>)
      returns (r: Step)
      requires i == |done| < |scripts| && Reached(scripts, done)
      requires openPartitions == TrackedAll(map[], made) && stack.cut == CutAfter(cut, made)
      modifies `steps, `findings, `openPartitions, stack
      ensures r == Outcome(scripts[i]) && Reached(scripts, done + [r])
      ensures openPartitions == TrackedAll(map[], made + Switches(scripts[i]))
      ensures stack.cut == CutAfter(cut, made + Switches(scripts[i]))
    {
      steps := steps[i := steps[i].(status := Running)];
      r := RunStep(stack, scripts[i]);
      steps := steps[i := r];
      Concat(map[], cut, made, Switches(scripts[i]));
      FindingsSnoc(done, r);
    }

    // Between two steps: what `rest` still has to add to the run's outlook.
    ghost predicate Underway(stack: Stack, scripts: seq<Script>, all: Outlook, cut: set<Pair>,
        rest: seq<Script>, left: nat, done: seq<Step>, made: seq<Switch>)
      reads `steps, `findings, `openPartitions, stack
    {
      && Reached(scripts, done) && rest == scripts[|done|..]
      && Along(all, rest, left, done, made)
      && openPartitions == TrackedAll(map[], made) && stack.cut == CutAfter(cut, made)
    }

    // The steps are over; nothing is cleaned up yet.
    ghost predicate Finished(stack: Stack, scripts: seq<Script>, all: Outlook, cut: set<Pair>, done: seq<Step>, verdict: Verdict)
      reads `steps, `findings, `openPartitions, stack
    {
      && Reached(scripts, done)
      && Over(all, scripts[|done|..], done, all.switches, verdict)
      && openPartitions == TrackedAll(map[], all.switches) && stack.cut == CutAfter(cut, all.switches)
    }

    // One step that was not cancelled.
    method Advance(stack: Stack, scripts: seq<Script>, i: nat, ghost all: Outlook, ghost cut: set<Pair>,
        ghost rest: seq<Script>, ghost left: nat, ghost next: nat, ghost done: seq<Step>, ghost made: seq<Switch>)
      returns (r: Step, ghost more: seq<Switch>)
      requires i == |done| < |scripts| && left == next + 1
      requires Underway(stack, scripts, all, cut, rest, left, done, made)
      modifies `steps, `findings, `openPartitions, stack
      ensures r.status == Failed ==> Finished(stack, scripts, all, cut, done + [r], RunFailed)
      ensures r.status != Failed ==> Underway(stack, scripts, all, cut, scripts[i + 1..], next, done + [r], more)
    {
      r := OneStep(stack, scripts, i, done, made, cut);
      more := made + Switches(scripts[i]);
      if r.status == Failed {
        AlongFail(all, scripts[i], rest, scripts[i + 1..], next, done, made);
      } else {
        AlongPass(all, scripts[i], rest, scripts[i + 1..], next, done, made);
      }
    }

    lemma {:induction false} Begin(stack: Stack, scripts: seq<Script>, calm: nat)
      requires Ready(scripts)
      ensures Underway(stack, scripts, Whole(scripts, calm), stack.cut, scripts, calm, [], [])
    {
    }

    // The loop is left for want of steps or because the run is cancelled.
    lemma {:induction false} Leave(stack: Stack, scripts: seq<Script>, all: Outlook, cut: set<Pair>,
        rest: seq<Script>, left: nat, done: seq<Step>, made: seq<Switch>)
      requires Underway(stack, scripts, all, cut, rest, left, done, made)
      requires rest == [] || left == 0
      ensures Finished(stack, scripts, all, cut, done, if left == 0 then RunAborted else RunPassed)
    {
      AlongEnd(all, rest, left, done, made);
    }

    lemma {:induction false} LeaveCancelled(stack: Stack, scripts: seq<Script>, all: Outlook, cut: set<Pair>,
        rest: seq<Script>, left: nat, done: seq<Step>, made: seq<Switch>)
      requires Underway(stack, scripts, all, cut, rest, left, done, made) && left == 0
      ensures Finished(stack, scripts, all, cut, done, RunAborted)
    {
      Leave(stack, scripts, all, cut, rest, left, done, made);
    }

    // Step `begun - 1` was the last to begin, and the pauses so far are the ones before it and its like.
    ghost predicate Paced(begun: nat)
      reads `currentStep, `pauses
    {
      currentStep == (if begun == 0 then 0 else begun - 1) && pauses == PausesTo(mode, currentStep)
    }

    // In step mode a run pauses before every step but the first, until it is released or cancelled.
    method PauseBefore(i: nat)
      modifies `phase, `currentStep, `pauses
      ensures currentStep == if mode == StepByStep && i > 0 then i else old(currentStep)
      ensures pauses == if mode == StepByStep && i > 0 then old(pauses) + [i] else old(pauses)
      ensures phase == if mode == StepByStep && i > 0 then Active else old(phase)
      ensures old(Paced(i)) ==> pauses == PausesTo(mode, i) == PausesTo(mode, currentStep)
    {
      if mode == StepByStep && i > 0 {
        Pause(i);
        phase := Active;
      }
    }

    method Pause(i: nat)
      modifies `phase, `currentStep, `pauses
      ensures phase == Paused && currentStep == i && pauses == old(pauses) + [i]
    {
      phase, currentStep := Paused, i;
      pauses := pauses + [i];
    }

    ghost predicate Going(stack: Stack, scripts: seq<Script>, calm: nat, all: Outlook, cut: set<Pair>,
        left: nat, done: seq<Step>, made: seq<Switch>)
      reads this, stack
    {
      && left + |done| == calm && |done| <= |scripts|
      && Underway(stack, scripts, all, cut, scripts[|done|..], left, done, made)
      && Paced(|done|)
    }

    ghost predicate Left(stack: Stack, scripts: seq<Script>, all: Outlook, cut: set<Pair>, done: seq<Step>, verdict: Verdict)
      reads this, stack
    {
      && Finished(stack, scripts, all, cut, done, verdict)
      && currentStep == LastStep(mode, verdict, |done|, |scripts|)
      && pauses == PausesTo(mode, currentStep)
    }

    // A step that was not cancelled, from the look at the context on.
    method TakeStep(stack: Stack, scripts: seq<Script>, i: nat, ghost all: Outlook, ghost cut: set<Pair>,
        ghost left: nat, ghost next: nat, ghost done: seq<Step>, ghost made: seq<Switch>)
      returns (verdict: Verdict, ghost done': seq<Step>, ghost more: seq<Switch>)
      requires i == |done| < |scripts| && left == next + 1
      requires Underway(stack, scripts, all, cut, scripts[i..], left, done, made)
      modifies `currentStep, `steps, `findings, `openPartitions, stack
      ensures verdict in {RunPassed, RunFailed} && |done'| == i + 1 && currentStep == i
      ensures verdict == RunFailed ==> Finished(stack, scripts, all, cut, done', RunFailed)
      ensures verdict == RunPassed ==> Underway(stack, scripts, all, cut, scripts[i + 1..], next, done', more)
    {
      currentStep := i;
      var r;
      r, more := Advance(stack, scripts, i, all, cut, scripts[i..], left, next, done, made);
      done' := done + [r];
      verdict := if r.status == Failed then RunFailed else RunPassed;
    }

    // One turn of the loop of execute; a verdict other than passed leaves the loop.
    method Turn(stack: Stack, scripts: seq<Script>, i: nat, calm: nat, ghost all: Outlook, ghost cut: set<Pair>,
        ghost left: nat, ghost done: seq<Step>, ghost made: seq<Switch>)
      returns (verdict: Verdict, ghost next: nat, ghost done': seq<Step>, ghost more: seq<Switch>)
      requires i == |done| < |scripts| && Going(stack, scripts, calm, all, cut, left, done, made)
      modifies this, stack
      ensures verdict != RunPassed ==> Left(stack, scripts, all, cut, done', verdict)
      ensures verdict == RunPassed ==> |done'| == i + 1 && Going(stack, scripts, calm, all, cut, next, done', more)
    {
      PauseBefore(i);
      if i >= calm {
        LeaveCancelled(stack, scripts, all, cut, scripts[i..], left, done, made);
        return RunAborted, left, done, made;
      }
      next := left - 1;
      verdict, done', more := TakeStep(stack, scripts, i, all, cut, left, next, done, made);
    }

    // The loop of execute; the run is cancelled before its step `calm`, or later if calm is large.
    method RunAll(stack: Stack, scripts: seq<Script>, calm: nat, ghost all: Outlook)
      returns (verdict: Verdict, ghost done: seq<Step>)
      requires Ready(scripts) && all == Whole(scripts, calm)
      modifies this, stack
      ensures Left(stack, scripts, all, old(stack.cut), done, verdict)
    {
      ghost var left: nat := calm;
      ghost var made: seq<Switch> := [];
      verdict, done := RunPassed, [];
      Begin(stack, scripts, calm);
      assert scripts[0..] == scripts;
      var i := 0;
      while i < |scripts|
        invariant verdict == RunPassed && i == |done| <= |scripts|
        invariant Going(stack, scripts, calm, all, old(stack.cut), left, done, made)
      {
        verdict, left, done, made := Turn(stack, scripts, i, calm, all, old(stack.cut), left, done, made);
        if verdict != RunPassed { return; }
        i := i + 1;
      }
      Leave(stack, scripts, all, old(stack.cut), scripts[i..], left, done, made);
      if |scripts| >= calm { verdict := RunAborted; }
    }

    // The end of execute.
    method SkipPending()
      modifies `steps
      ensures |steps| == |old(steps)|
      ensures forall j | 0 <= j < |steps| ::
        steps[j] == if old(steps)[j].status == Pending then old(steps)[j].(status := Skipped) else old(steps)[j]
    {
      for i := 0 to |steps|
        invariant |steps| == |old(steps)|
        invariant forall j | 0 <= j < i ::
          steps[j] == if old(steps)[j].status == Pending then old(steps)[j].(status := Skipped) else old(steps)[j]
        invariant forall j | i <= j < |steps| :: steps[j] == old(steps)[j]
      {
        if steps[i].status == Pending { steps := steps[i := steps[i].(status := Skipped)]; }
      }
    }

    // Leaving out what waits turns a reached record into the run's results.
    method SkipRest(ghost scripts: seq<Script>, ghost done: seq<Step>, ghost all: seq<Step>)
      requires Reached(scripts, done) && all == done + Skipping(scripts[|done|..])
      modifies `steps
      ensures steps == all
      ensures findings == FindingsOf(all)
    {
      ghost var was, k := steps, |done|;
      SkipPending();
      forall j | 0 <= j < |steps| ensures steps[j] == (done + Skipping(scripts[k..]))[j] {
        if j < k {
          assert done[j] == was[..k][j];
        } else {
          SkippingAt(scripts[k..], j - k);
        }
      }
      SkippingSkips(scripts[k..]);
      FindingsSkipped(done, Skipping(scripts[k..]));
    }

    // execute
    method Execute(stack: Stack, scripts: seq<Script>, calm: nat, heals: Pair -> bool)
      requires Ready(scripts)
      modifies this, stack
      ensures phase == Ended(FinalStatus(scripts, calm))
      ensures steps == Results(scripts, calm)
      ensures findings == FindingsOf(steps)
      ensures currentStep == LastStep(mode, FinalStatus(scripts, calm), BegunOf(scripts, calm), |scripts|)
      ensures pauses == PausesTo(mode, currentStep)
      ensures openPartitions == if cleanup == Some(Flag(false)) then TrackedAll(map[], RunSwitches(scripts, calm)) else map[]
      ensures stack.cut == CutAfterRun(Keeps(), heals, old(stack.cut), RunSwitches(scripts, calm))
      ensures cleanup != Some(Flag(false)) ==> HealedBut(stack.cut, heals, old(stack.cut))
      ensures cleanup != Some(Flag(false)) && AlwaysHeals(heals) ==> stack.cut <= old(stack.cut)
      ensures cleanup == Some(Flag(false)) ==> stack.cut == CutAfter(old(stack.cut), RunSwitches(scripts, calm))
    {
      ghost var done := RunToCleanup(stack, scripts, calm, heals);
      SkipRest(scripts, done, Results(scripts, calm));
    }

    // The loop and the cleanup; what waits is still to be marked.
    method RunToCleanup(stack: Stack, scripts: seq<Script>, calm: nat, heals: Pair -> bool)
      returns (ghost done: seq<Step>)
      requires Ready(scripts)
      modifies this, stack
      ensures Reached(scripts, done) && Results(scripts, calm) == done + Skipping(scripts[|done|..])
      ensures phase == Ended(FinalStatus(scripts, calm))
      ensures currentStep == LastStep(mode, FinalStatus(scripts, calm), BegunOf(scripts, calm), |scripts|)
      ensures pauses == PausesTo(mode, currentStep)
      ensures openPartitions == if cleanup == Some(Flag(false)) then TrackedAll(map[], RunSwitches(scripts, calm)) else map[]
      ensures stack.cut == CutAfterRun(Keeps(), heals, old(stack.cut), RunSwitches(scripts, calm))
      ensures cleanup != Some(Flag(false)) ==> HealedBut(stack.cut, heals, old(stack.cut))
      ensures cleanup != Some(Flag(false)) && AlwaysHeals(heals) ==> stack.cut <= old(stack.cut)
      ensures cleanup == Some(Flag(false)) ==> stack.cut == CutAfter(old(stack.cut), RunSwitches(scripts, calm))
    {
      var verdict;
      verdict, done := RunToEnd(stack, scripts, calm);
      CleanupAfter(stack, heals, old(stack.cut), RunSwitches(scripts, calm));
      phase := Ended(verdict);
    }

    // Cleaning up after these switches.
    method CleanupAfter(stack: Stack, heals: Pair -> bool, ghost cut: set<Pair>, ghost switches: seq<Switch>)
      requires openPartitions == TrackedAll(map[], switches) && stack.cut == CutAfter(cut, switches)
      modifies `openPartitions, stack
      ensures openPartitions == if cleanup == Some(Flag(false)) then TrackedAll(map[], switches) else map[]
      ensures stack.cut == CutAfterRun(Keeps(), heals, cut, switches)
      ensures cleanup != Some(Flag(false)) ==> HealedBut(stack.cut, heals, cut)
      ensures cleanup != Some(Flag(false)) && AlwaysHeals(heals) ==> stack.cut <= cut
      ensures cleanup == Some(Flag(false)) ==> stack.cut == CutAfter(cut, switches)
    {
      Cleanup(stack, heals);
      CleanedUp(Keeps(), heals, cut, switches);
    }

    // The loop, with its outcome told by the specification's parts.
    method RunToEnd(stack: Stack, scripts: seq<Script>, calm: nat) returns (verdict: Verdict, ghost done: seq<Step>)
      requires Ready(scripts)
      modifies this, stack
      ensures Reached(scripts, done) && Results(scripts, calm) == done + Skipping(scripts[|done|..])
      ensures verdict == FinalStatus(scripts, calm)
      ensures currentStep == LastStep(mode, verdict, BegunOf(scripts, calm), |scripts|)
      ensures pauses == PausesTo(mode, currentStep)
      ensures openPartitions == TrackedAll(map[], RunSwitches(scripts, calm))
      ensures stack.cut == CutAfter(old(stack.cut), RunSwitches(scripts, calm))
    {
      verdict, done := RunAll(stack, scripts, calm, Whole(scripts, calm));
    }

    method HealNode(stack: Stack, node: Node, planes: seq<Plane>, heals: Pair -> bool)
      modifies stack
      ensures forall x :: x in stack.cut <==> x in old(stack.cut) && !(x.0 == node && x.1 in planes && heals(x))
    {
      for i := 0 to |planes|
        invariant forall x :: x in stack.cut <==> x in old(stack.cut) && !(x.0 == node && x.1 in planes[..i] && heals(x))
      {
        assert planes[..i + 1] == planes[..i] + [planes[i]];
        var ok := heals((node, planes[i]));
        assert [Switch(node, planes[i], false)][..0] == [];
        stack.Partition(node, planes[i], false, ok);
      }
      assert planes[..|planes|] == planes;
    }
  }

  function Waiting(names: seq<string>): (r: seq<Step>)
    ensures |r| == |names| && forall i | 0 <= i < |names| :: r[i] == Step(names[i], Pending, [])
  {
    if names == [] then [] else [Step(names[0], Pending, [])] + Waiting(names[1..])
  }
}
