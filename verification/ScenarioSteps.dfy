/**
 * What the steps of a scenario run come to (internal/scenario/engine.go, execute, and
 * internal/scenario/executor.go, runStep), for any outcome of every action, partition call and
 * assertion and any moment of cancellation. An assertion's outcome is its result after polling.
 */
module ScenarioSteps {
  import opened Partitions

  datatype Assertion = Assertion(check: string, detail: string, should: bool, passed: bool)

  // One call to switch a node's plane, and whether it is answered without an error.
  datatype Call = Call(node: Node, ok: bool)

  datatype Action = Partition(plane: Plane, on: bool, calls: seq<Call>) | Other(ok: bool)

  // A step with everything the outside world answers while it is run.
  datatype Script = Script(name: string, resolves: bool, action: Action, asserts: seq<Assertion>)

  datatype StepStatus = Pending | Running | Passed | Failed | Skipped

  datatype Step = Step(name: string, status: StepStatus, assertions: seq<Assertion>)

  datatype Finding = Finding(step: string, check: string, detail: string)

  datatype Verdict = RunPassed | RunFailed | RunAborted

  datatype Status = Active | Paused | Ended(verdict: Verdict)

  // ---- one step --------------------------------------------------------------------------

  predicate Answered(calls: seq<Call>) { forall i | 0 <= i < |calls| :: calls[i].ok }

  predicate Succeeds(a: Action) {
    match a
    case Partition(_, _, calls) => Answered(calls)
    case Other(ok) => ok
  }

  // The switches made: calls are made in order and the first error ends them.
  function Effects(plane: Plane, on: bool, calls: seq<Call>): seq<Switch> {
    if calls == [] || !calls[0].ok then []
    else [Switch(calls[0].node, plane, on)] + Effects(plane, on, calls[1..])
  }

  // After i answered calls, one more adds its switch if it is answered and else ends them all.
  lemma {:induction false} EffectsStep(plane: Plane, on: bool, calls: seq<Call>, i: nat)
    requires i < |calls| && forall j | 0 <= j < i :: calls[j].ok
    ensures calls[i].ok ==> Effects(plane, on, calls[..i + 1]) == Effects(plane, on, calls[..i]) + [Switch(calls[i].node, plane, on)]
    ensures !calls[i].ok ==> Effects(plane, on, calls) == Effects(plane, on, calls[..i])
  {
    if i > 0 {
      EffectsStep(plane, on, calls[1..], i - 1);
      assert calls[1..][..i - 1] == calls[..i][1..];
      assert calls[1..][..i] == calls[..i + 1][1..];
    }
  }

  function Switches(s: Script): seq<Switch> {
    if s.resolves && s.action.Partition? then Effects(s.action.plane, s.action.on, s.action.calls) else []
  }

  // A failing assertion that is not a mere `should` ends the step.
  predicate Stops(a: Assertion) { !a.passed && !a.should }

  predicate Stopped(asserts: seq<Assertion>) { exists i | 0 <= i < |asserts| :: Stops(asserts[i]) }

  function Recorded(asserts: seq<Assertion>): seq<Assertion> {
    if asserts == [] then []
    else if Stops(asserts[0]) then [asserts[0]]
    else [asserts[0]] + Recorded(asserts[1..])
  }

  function FindingsIn(name: string, assertions: seq<Assertion>): seq<Finding> {
    if assertions == [] then []
    else
      var a := assertions[|assertions| - 1];
      FindingsIn(name, assertions[..|assertions| - 1])
      + if !a.passed && a.should then [Finding(name, a.check, a.detail)] else []
  }

  function Outcome(s: Script): Step {
    if !s.resolves || !Succeeds(s.action) then Step(s.name, Failed, [])
    else Step(s.name, if Stopped(s.asserts) then Failed else Passed, Recorded(s.asserts))
  }

  // A step passes exactly when it can be resolved, its action succeeds and no assertion fails but for a mere
  // `should`; it fails otherwise, and one whose action failed asserts nothing.
  lemma {:induction false} StepPassesIff(s: Script)
    ensures var acted := s.resolves && match s.action
              case Partition(_, _, calls) => (forall i | 0 <= i < |calls| :: calls[i].ok)
              case Other(ok) => ok;
      && Outcome(s).name == s.name
      && Outcome(s).status == (if acted && (forall a | a in s.asserts :: a.passed || a.should) then Passed else Failed)
      && (!acted ==> Outcome(s).assertions == [])
      && (acted ==> Outcome(s).assertions == Recorded(s.asserts))
      && (!s.resolves ==> Switches(s) == [])
  {
    if forall a | a in s.asserts :: a.passed || a.should {
      assert forall i | 0 <= i < |s.asserts| :: s.asserts[i] in s.asserts;
    } else {
      var a :| a in s.asserts && !a.passed && !a.should;
      var i :| 0 <= i < |s.asserts| && s.asserts[i] == a;
      assert Stops(s.asserts[i]);
    }
  }

  // A finding names the step and a failing `should` of it.
  lemma {:induction false} FindingsAre(name: string, assertions: seq<Assertion>, f: Finding)
    ensures f in FindingsIn(name, assertions)
      <==> exists a | a in assertions :: !a.passed && a.should && f == Finding(name, a.check, a.detail)
  {
    if assertions != [] {
      var n := |assertions| - 1;
      FindingsAre(name, assertions[..n], f);
      assert assertions == assertions[..n] + [assertions[n]];
    }
  }

  // ---- whole runs ------------------------------------------------------------------------

  function Skipping(scripts: seq<Script>): seq<Step>
    ensures |Skipping(scripts)| == |scripts|
  {
    if scripts == [] then [] else [Step(scripts[0].name, Skipped, [])] + Skipping(scripts[1..])
  }

  // Steps are taken in order until one fails; `calm` of them start before the run is cancelled.
  function Results(scripts: seq<Script>, calm: nat): seq<Step>
    ensures |Results(scripts, calm)| == |scripts|
  {
    if scripts == [] || calm == 0 then Skipping(scripts)
    else
      var r := Outcome(scripts[0]);
      [r] + if r.status == Failed then Skipping(scripts[1..]) else Results(scripts[1..], calm - 1)
  }

  function RunSwitches(scripts: seq<Script>, calm: nat): seq<Switch> {
    if scripts == [] || calm == 0 then []
    else
      Switches(scripts[0])
      + if Outcome(scripts[0]).status == Failed then [] else RunSwitches(scripts[1..], calm - 1)
  }

  // Cancelling is noticed between the steps and after the last one.
  function FinalStatus(scripts: seq<Script>, calm: nat): Verdict {
    if calm == 0 then RunAborted
    else if scripts == [] then RunPassed
    else if Outcome(scripts[0]).status == Failed then RunFailed
    else FinalStatus(scripts[1..], calm - 1)
  }

  // How many steps began.
  function BegunOf(scripts: seq<Script>, calm: nat): nat {
    if scripts == [] || calm == 0 then 0
    else 1 + if Outcome(scripts[0]).status == Failed then 0 else BegunOf(scripts[1..], calm - 1)
  }

  function FindingsOf(steps: seq<Step>): seq<Finding> {
    if steps == [] then []
    else
      var n := |steps| - 1;
      FindingsOf(steps[..n]) + FindingsIn(steps[n].name, steps[n].assertions)
  }

  // ---- the shape of a finished run -------------------------------------------------------

  ghost predicate AllSkipped(steps: seq<Step>) {
    forall i | 0 <= i < |steps| :: steps[i].status == Skipped && steps[i].assertions == []
  }

  // Passed steps, then at most one that failed, then skipped ones.
  ghost predicate Shaped(steps: seq<Step>, passed: nat, failed: bool) {
    var next := passed + if failed then 1 else 0;
    && next <= |steps|
    && (forall i | 0 <= i < passed :: steps[i].status == Passed)
    && (failed ==> steps[passed].status == Failed)
    && AllSkipped(steps[next..])
  }

  lemma {:induction false} SkippingSkips(scripts: seq<Script>)
    ensures AllSkipped(Skipping(scripts))
  {
    if scripts != [] { SkippingSkips(scripts[1..]); }
  }

  // How many steps passed.
  function PassedOf(scripts: seq<Script>, calm: nat): nat {
    if scripts == [] || calm == 0 || Outcome(scripts[0]).status == Failed then 0
    else 1 + PassedOf(scripts[1..], calm - 1)
  }

  lemma {:induction false} RunShape(scripts: seq<Script>, calm: nat)
    ensures Shaped(Results(scripts, calm), PassedOf(scripts, calm), FinalStatus(scripts, calm) == RunFailed)
    ensures PassedOf(scripts, calm) <= calm
    ensures BegunOf(scripts, calm) == PassedOf(scripts, calm) + if FinalStatus(scripts, calm) == RunFailed then 1 else 0
    ensures FinalStatus(scripts, calm) == RunPassed <==> PassedOf(scripts, calm) == |scripts| < calm
    ensures FinalStatus(scripts, calm) == RunAborted <==> PassedOf(scripts, calm) == calm <= |scripts|
    decreases |scripts|
  {
    var steps := Results(scripts, calm);
    if scripts == [] || calm == 0 {
      SkippingSkips(scripts);
      assert steps[0..] == steps;
    } else if Outcome(scripts[0]).status == Failed {
      SkippingSkips(scripts[1..]);
      assert steps[1..] == Skipping(scripts[1..]);
    } else {
      RunShape(scripts[1..], calm - 1);
      ShapedTail(steps, PassedOf(scripts[1..], calm - 1), FinalStatus(scripts, calm) == RunFailed);
    }
  }

  lemma {:induction false} ShapedTail(steps: seq<Step>, passed: nat, failed: bool)
    requires steps != [] && steps[0].status == Passed && Shaped(steps[1..], passed, failed)
    ensures Shaped(steps, passed + 1, failed)
  {
    var next := passed + if failed then 1 else 0;
    assert steps[1..][next..] == steps[next + 1..];
    forall i | 0 <= i < passed + 1 ensures steps[i].status == Passed {
      if i > 0 { assert steps[i] == steps[1..][i - 1]; }
    }
  }

  // A run failed exactly when one of its steps did, and passed only if all of them did.
  lemma {:induction false} StatusMatchesSteps(scripts: seq<Script>, calm: nat)
    ensures FinalStatus(scripts, calm) == RunFailed <==> exists s | s in Results(scripts, calm) :: s.status == Failed
    ensures FinalStatus(scripts, calm) == RunPassed ==> forall s | s in Results(scripts, calm) :: s.status == Passed
  {
    RunShape(scripts, calm);
    ShapeTells(Results(scripts, calm), PassedOf(scripts, calm), FinalStatus(scripts, calm) == RunFailed);
  }

  lemma {:induction false} ShapeTells(steps: seq<Step>, passed: nat, failed: bool)
    requires Shaped(steps, passed, failed)
    ensures failed <==> exists s | s in steps :: s.status == Failed
    ensures passed == |steps| ==> forall s | s in steps :: s.status == Passed
  {
    var next := passed + if failed then 1 else 0;
    forall i | next <= i < |steps| ensures steps[i].status == Skipped {
      assert steps[next..][i - next] == steps[i];
    }
    if failed { assert steps[passed] in steps; }
  }

  // The steps that began have the results of carrying them out, in order, and the others are skipped;
  lemma {:induction false} ResultsAre(scripts: seq<Script>, calm: nat, i: nat)
    requires i < |scripts|
    ensures Results(scripts, calm)[i] == if i < BegunOf(scripts, calm) then Outcome(scripts[i]) else Step(scripts[i].name, Skipped, [])
    decreases |scripts|
  {
    var rest := scripts[1..];
    if calm == 0 {
      SkippingAt(scripts, i);
    } else if i > 0 {
      if Outcome(scripts[0]).status == Failed { SkippingAt(rest, i - 1); } else { ResultsAre(rest, calm - 1, i - 1); }
    }
  }

  // and the switches made are those of the steps that began.
  lemma {:induction false} SwitchesAre(scripts: seq<Script>, calm: nat)
    ensures BegunOf(scripts, calm) <= |scripts|
    ensures RunSwitches(scripts, calm) == AllSwitches(scripts[..BegunOf(scripts, calm)])
    decreases |scripts|
  {
    if scripts != [] && calm > 0 {
      var rest, n := scripts[1..], BegunOf(scripts, calm) - 1;
      if Outcome(scripts[0]).status != Failed { SwitchesAre(rest, calm - 1); }
      assert scripts[..n + 1][1..] == rest[..n];
    }
  }

  function AllSwitches(scripts: seq<Script>): seq<Switch> {
    if scripts == [] then [] else Switches(scripts[0]) + AllSwitches(scripts[1..])
  }

  // ---- a run in progress -----------------------------------------------------------------

  // After these results, none a failure, and these switches, `rest` is left to do, `calm` of it uncancelled.
  ghost predicate Along(all: Outlook, rest: seq<Script>, calm: nat, done: seq<Step>, made: seq<Switch>) {
    && all.results == done + Results(rest, calm)
    && all.switches == made + RunSwitches(rest, calm)
    && all.verdict == FinalStatus(rest, calm)
    && all.begun == |done| + BegunOf(rest, calm)
  }

  // What a whole run comes to.
  datatype Outlook = Outlook(results: seq<Step>, switches: seq<Switch>, verdict: Verdict, begun: nat)

  function Whole(scripts: seq<Script>, calm: nat): Outlook {
    Outlook(Results(scripts, calm), RunSwitches(scripts, calm), FinalStatus(scripts, calm), BegunOf(scripts, calm))
  }

  // The run is over with these results, these switches and `rest` left out.
  ghost predicate Over(all: Outlook, rest: seq<Script>, done: seq<Step>, made: seq<Switch>, verdict: Verdict) {
    all.results == done + Skipping(rest) && all.switches == made && all.verdict == verdict && all.begun == |done|
  }

  lemma {:induction false} Assoc<T>(a: seq<T>, b: seq<T>, c: seq<T>)
    ensures a + (b + c) == (a + b) + c
  {
  }

  lemma {:induction false} AlongPass(
    all: Outlook, s: Script, rest: seq<Script>, next: seq<Script>, calm: nat, done: seq<Step>, made: seq<Switch>)
    requires rest != [] && s == rest[0] && next == rest[1..]
    requires Along(all, rest, calm + 1, done, made) && Outcome(s).status != Failed
    ensures Along(all, next, calm, done + [Outcome(s)], made + Switches(s))
  {
    Assoc(done, [Outcome(s)], Results(next, calm));
    Assoc(made, Switches(s), RunSwitches(next, calm));
  }

  lemma {:induction false} AlongFail(
    all: Outlook, s: Script, rest: seq<Script>, next: seq<Script>, calm: nat, done: seq<Step>, made: seq<Switch>)
    requires rest != [] && s == rest[0] && next == rest[1..]
    requires Along(all, rest, calm + 1, done, made) && Outcome(s).status == Failed
    ensures Over(all, next, done + [Outcome(s)], made + Switches(s), RunFailed)
  {
    Assoc(done, [Outcome(s)], Skipping(next));
    assert RunSwitches(rest, calm + 1) == Switches(s);
  }

  lemma {:induction false} AlongEnd(all: Outlook, rest: seq<Script>, calm: nat, done: seq<Step>, made: seq<Switch>)
    requires Along(all, rest, calm, done, made) && (rest == [] || calm == 0)
    ensures Over(all, rest, done, made, if calm == 0 then RunAborted else RunPassed)
  {
    assert made + [] == made;
  }

  lemma {:induction false} SkippingAt(scripts: seq<Script>, i: nat)
    requires i < |scripts|
    ensures Skipping(scripts)[i] == Step(scripts[i].name, Skipped, [])
  {
    if i > 0 { SkippingAt(scripts[1..], i - 1); }
  }

  lemma {:induction false} FindingsSnoc(steps: seq<Step>, s: Step)
    ensures FindingsOf(steps + [s]) == FindingsOf(steps) + FindingsIn(s.name, s.assertions)
  {
    assert (steps + [s])[..|steps|] == steps;
  }

  lemma {:induction false} FindingsSkipped(steps: seq<Step>, skipped: seq<Step>)
    requires AllSkipped(skipped)
    ensures FindingsOf(steps + skipped) == FindingsOf(steps)
  {
    if skipped == [] {
      assert steps + skipped == steps;
    } else {
      var init, last := skipped[..|skipped| - 1], skipped[|skipped| - 1];
      FindingsSkipped(steps, init);
      FindingsSnoc(steps + init, last);
      assert last.assertions == [] && FindingsIn(last.name, []) == [];
      assert steps + skipped == (steps + init) + [last];
    }
  }

  // ---- the assertions a step records -----------------------------------------------------

  // The record is the assertions up to and including the first that ends the step.
  lemma {:induction false} RecordedTo(asserts: seq<Assertion>, i: nat)
    requires i < |asserts| && Stops(asserts[i]) && forall j | 0 <= j < i :: !Stops(asserts[j])
    ensures Recorded(asserts) == asserts[..i + 1]
  {
    if i == 0 {
      assert asserts[..1] == [asserts[0]];
    } else {
      RecordedTo(asserts[1..], i - 1);
      assert asserts[..i + 1] == [asserts[0]] + asserts[1..][..i];
    }
  }

  lemma {:induction false} RecordedWhole(asserts: seq<Assertion>)
    requires !Stopped(asserts)
    ensures Recorded(asserts) == asserts
  {
    if asserts != [] {
      RecordedWhole(asserts[1..]);
      assert asserts == [asserts[0]] + asserts[1..];
    }
  }

  // Findings are the failing `should` assertions that were recorded, one each.
  function Missed(assertions: seq<Assertion>): nat {
    if assertions == [] then 0
    else
      var a := assertions[|assertions| - 1];
      Missed(assertions[..|assertions| - 1]) + if !a.passed && a.should then 1 else 0
  }

  function MissedIn(steps: seq<Step>): nat {
    if steps == [] then 0 else MissedIn(steps[..|steps| - 1]) + Missed(steps[|steps| - 1].assertions)
  }

  lemma {:induction false} FindingsInCount(name: string, assertions: seq<Assertion>)
    ensures |FindingsIn(name, assertions)| == Missed(assertions)
  {
    if assertions != [] {
      FindingsInCount(name, assertions[..|assertions| - 1]);
    }
  }

  lemma {:induction false} FindingsCount(steps: seq<Step>)
    ensures |FindingsOf(steps)| == MissedIn(steps)
  {
    if steps != [] {
      var n := |steps| - 1;
      FindingsInCount(steps[n].name, steps[n].assertions);
      FindingsCount(steps[..n]);
    }
  }
}
