/**
 * The counters and tallies of a sustained send against what happened: each is told from the trace of actions
 * alone, by looking at where a worker or the producer stood when it took its step.
 */
module SendBooks {
  import opened Basics
  import opened SendController

  datatype Kind =
    | Enqueues | LateEnqueues   // a job goes into the channel; after cancellation
    | Takes | LateTakes         // a worker takes one out; after cancellation
    | Attempts                  // a worker counts an attempt
    | Answers(o: Outcome)       // a send is answered

  // An action of run g of this kind.
  predicate Is(s: State, a: Action, g: nat, k: Kind) {
    && (a.Produce? || a.Work?) && a.g == g && g in s.runs
    && var r := s.runs[g];
      if a.Produce? then a.go && r.pc == Offering && (k == Enqueues || (k == LateEnqueues && r.cancelled))
      else
        && a.i < |r.workers|
        && match k
           case Takes => r.workers[a.i] == Idle && r.queue > 0
           case LateTakes => r.workers[a.i] == Idle && r.queue > 0 && r.cancelled
           case Attempts => r.workers[a.i] == Received
           case Answers(o) => r.workers[a.i] == Sending && a.o == o
           case _ => false
  }

  // How many actions of a kind run g took on the way.
  function Times(trace: seq<Action>, g: nat, k: Kind): nat {
    if trace == [] then 0
    else
      var n := |trace| - 1;
      Times(trace[..n], g, k)
      + match After(INITIAL, trace[..n])
        case Some(s) => if Is(s, trace[n], g, k) then 1 else 0
        case None => 0
  }

  ghost predicate RunBooked(trace: seq<Action>, g: nat, r: Run) {
    && r.enqueued == Times(trace, g, Enqueues) && r.lateEnqueued == Times(trace, g, LateEnqueues)
    && r.taken == Times(trace, g, Takes) && r.lateTaken == Times(trace, g, LateTakes)
  }

  ghost predicate Counted(trace: seq<Action>, g: nat, c: Core) {
    && c.attempted == Times(trace, g, Attempts)
    && c.succeeded == Times(trace, g, Answers(Sent)) && c.failed == Times(trace, g, Answers(Failure))
    && c.backpressure == Times(trace, g, Answers(NoCoins)) && c.canceled == Times(trace, g, Answers(Aborted))
  }

  // One action more.
  lemma {:induction false} TimesMore(trace: seq<Action>, a: Action, s: State, g: nat, k: Kind)
    requires After(INITIAL, trace) == Some(s)
    ensures Times(trace + [a], g, k) == Times(trace, g, k) + if Is(s, a, g, k) then 1 else 0
    ensures After(INITIAL, trace + [a]) == Next(s, a)
  {
    assert (trace + [a])[..|trace|] == trace;
  }

  // What there was before the last action of a trace.
  lemma {:induction false} Before(trace: seq<Action>, s: State) returns (init: seq<Action>, a: Action, before: State)
    requires trace != [] && After(INITIAL, trace) == Some(s)
    ensures trace == init + [a] && |init| < |trace| && After(INITIAL, init) == Some(before) && Next(before, a) == Some(s) && Inv(before)
  {
    init, a := trace[..|trace| - 1], trace[|trace| - 1];
    before := After(INITIAL, init).value;
    TraceKeepsInv(INITIAL, init);
  }

  // A run that is not there has done nothing.
  lemma {:induction false} NothingYet(trace: seq<Action>, s: State, g: nat, k: Kind)
    requires After(INITIAL, trace) == Some(s) && g > s.c.gen
    ensures Times(trace, g, k) == 0
    decreases |trace|
  {
    if trace != [] {
      var init, a, before := Before(trace, s);
      GenGrows(before, a, s);
      NothingYet(init, before, g, k);
      TimesMore(init, a, before, g, k);
    }
  }

  lemma {:induction false} GenGrows(s: State, a: Action, t: State)
    requires Inv(s) && Next(s, a) == Some(t)
    ensures s.c.gen <= t.c.gen
    ensures forall g, k | g > s.c.gen :: !Is(s, a, g, k)
  {
  }

  lemma {:induction false} RunStepBooked(s: State, a: Action, t: State, g: nat)
    requires Next(s, a) == Some(t) && g in s.runs
    ensures g in t.runs || (a.Start? && StartAnswerFor(s.c, a.arcade) == Started)
    ensures g in t.runs && !(a.Start? && g == s.c.gen + 1) ==>
      && t.runs[g].enqueued == s.runs[g].enqueued + (if Is(s, a, g, Enqueues) then 1 else 0)
      && t.runs[g].lateEnqueued == s.runs[g].lateEnqueued + (if Is(s, a, g, LateEnqueues) then 1 else 0)
      && t.runs[g].taken == s.runs[g].taken + (if Is(s, a, g, Takes) then 1 else 0)
      && t.runs[g].lateTaken == s.runs[g].lateTaken + (if Is(s, a, g, LateTakes) then 1 else 0)
  {
  }

  // A worker's step adds what stands behind its place, whatever run it is of; only the live one has steps left.
  lemma {:induction false} WorkCounts(c: Core, w: Worker, o: Outcome)
    ensures var d := WorkerCounts(c, w, o);
      && d.gen == c.gen && d.attempted == c.attempted + (if w == Received then 1 else 0)
      && d.succeeded == c.succeeded + (if w == Sending && o == Sent then 1 else 0)
      && d.failed == c.failed + (if w == Sending && o == Failure then 1 else 0)
      && d.backpressure == c.backpressure + (if w == Sending && o == NoCoins then 1 else 0)
      && d.canceled == c.canceled + (if w == Sending && o == Aborted then 1 else 0)
  {
  }

  lemma {:induction false} OnlyLiveWorks(s: State, a: Action)
    requires Inv(s) && a.Work? && Next(s, a).Some?
    ensures a.g == s.c.gen
  {
  }

  lemma {:induction false} CountersStep(s: State, a: Action, t: State)
    requires Inv(s) && Next(s, a) == Some(t) && !(a.Start? && StartAnswerFor(s.c, a.arcade) == Started)
    ensures t.c.gen == s.c.gen && t.c.attempted == s.c.attempted + if Is(s, a, s.c.gen, Attempts) then 1 else 0
    ensures t.c.succeeded == s.c.succeeded + if Is(s, a, s.c.gen, Answers(Sent)) then 1 else 0
    ensures t.c.failed == s.c.failed + if Is(s, a, s.c.gen, Answers(Failure)) then 1 else 0
    ensures t.c.backpressure == s.c.backpressure + if Is(s, a, s.c.gen, Answers(NoCoins)) then 1 else 0
    ensures t.c.canceled == s.c.canceled + if Is(s, a, s.c.gen, Answers(Aborted)) then 1 else 0
  {
    if a.Work? {
      OnlyLiveWorks(s, a);
      WorkCounts(s.c, s.runs[a.g].workers[a.i], a.o);
    } else {
      NothingCounted(s, a, t);
    }
  }

  // No other action moves a counter.
  lemma {:induction false} NothingCounted(s: State, a: Action, t: State)
    requires Next(s, a) == Some(t) && !a.Work? && !(a.Start? && StartAnswerFor(s.c, a.arcade) == Started)
    ensures t.c == s.c.(running := t.c.running, draining := t.c.draining)
  {
  }

  lemma {:induction false} RunBookedMore(init: seq<Action>, a: Action, before: State, s: State, g: nat)
    requires After(INITIAL, init) == Some(before) && Inv(before) && Next(before, a) == Some(s) && g in s.runs
    requires g in before.runs ==> RunBooked(init, g, before.runs[g])
    ensures RunBooked(init + [a], g, s.runs[g])
  {
    TimesMore(init, a, before, g, Enqueues);
    TimesMore(init, a, before, g, LateEnqueues);
    TimesMore(init, a, before, g, Takes);
    TimesMore(init, a, before, g, LateTakes);
    if g in before.runs {
      RunStepBooked(before, a, s, g);
    } else {
      NothingYet(init, before, g, Enqueues);
      NothingYet(init, before, g, LateEnqueues);
      NothingYet(init, before, g, Takes);
      NothingYet(init, before, g, LateTakes);
    }
  }

  // In every reachable state each run's tallies are what it did,
  lemma {:induction false} RunsAreBooked(trace: seq<Action>, s: State, g: nat)
    requires After(INITIAL, trace) == Some(s) && g in s.runs
    ensures RunBooked(trace, g, s.runs[g])
    decreases |trace|
  {
    if trace != [] {
      var init, a, before := Before(trace, s);
      if g in before.runs { RunsAreBooked(init, before, g); }
      RunBookedMore(init, a, before, s, g);
    }
  }

  // and each counter is the number of sends of the run last started that were attempted, or answered with that
  // outcome.
  lemma {:induction false} CountersTellOutcomes(trace: seq<Action>, s: State)
    requires After(INITIAL, trace) == Some(s)
    ensures Counted(trace, s.c.gen, s.c)
    decreases |trace|
  {
    if trace != [] {
      var init, a, before := Before(trace, s);
      CountersTellOutcomes(init, before);
      CountersMore(init, a, before, s);
    }
  }

  lemma {:induction false} CountersMore(trace: seq<Action>, a: Action, s: State, t: State)
    requires Inv(s) && After(INITIAL, trace) == Some(s) && Next(s, a) == Some(t) && Counted(trace, s.c.gen, s.c)
    ensures Counted(trace + [a], t.c.gen, t.c)
  {
    forall k ensures Times(trace + [a], t.c.gen, k) == Times(trace, t.c.gen, k) + if Is(s, a, t.c.gen, k) then 1 else 0 {
      TimesMore(trace, a, s, t.c.gen, k);
    }
    if a.Start? && StartAnswerFor(s.c, a.arcade) == Started {
      forall k ensures Times(trace, t.c.gen, k) == 0 {
        NothingYet(trace, s, t.c.gen, k);
      }
    } else {
      CountersStep(s, a, t);
    }
  }

  // ---- a run that sends ------------------------------------------------------------------

  // One turn of the producer and one of a single worker, whose send is answered with o.
  function OneTurn(o: Outcome): seq<Action> {
    [Start(1, true)] + [Produce(1, true)] + [Produce(1, true)] + [Produce(1, true)]
    + [Work(1, 0, o)] + [Work(1, 0, o)] + [Work(1, 0, o)] + [Work(1, 0, o)] + [Work(1, 0, o)]
  }

  lemma {:induction false} AfterMore(trace: seq<Action>, s: State, a: Action)
    requires After(INITIAL, trace) == Some(s)
    ensures After(INITIAL, trace + [a]) == Next(s, a)
  {
    assert (trace + [a])[..|trace|] == trace;
  }

  // A started run does send: after one turn of both a job was enqueued, taken and attempted, and its answer counted.
  lemma {:induction false} OneTurnSends(o: Outcome)
    ensures var s := After(INITIAL, OneTurn(o));
      && s.Some? && s.value.c.running && s.value.c.attempted == 1 && s.value.c.inFlight == 0
      && s.value.c.succeeded == (if o == Sent then 1 else 0)
      && 1 in s.value.runs && s.value.runs[1] == Run(AtTop, [Idle], 0, false, false, 1, 1, 0, 0)
  {
    var c := Core(true, false, 1, 0, 0, 0, 0, 0, 0);
    var r0 := Run(AtTop, [Idle], 0, false, false, 0, 0, 0, 0);
    assert Pool(1) == [Idle];
    AfterMore([], INITIAL, Start(1, true));
    assert [] + [Start(1, true)] == [Start(1, true)];
    var t1 := [Start(1, true)];
    assert Workers(1) == 1 && INITIAL.runs[1 := r0] == map[1 := r0];
    assert After(INITIAL, t1) == Some(State(c, map[1 := r0]));
    Turned(t1, c, r0);
    Worked(t1 + [Produce(1, true)] + [Produce(1, true)] + [Produce(1, true)], c, r0.(queue := 1, enqueued := 1), o);
  }

  // One step of the only run.
  lemma {:induction false} StepTo(t: seq<Action>, c: Core, r: Run, a: Action, next: Core, s: Run)
    requires After(INITIAL, t) == Some(State(c, map[1 := r]))
    requires Next(State(c, map[1 := r]), a) == Some(State(next, map[1 := r][1 := s]))
    ensures After(INITIAL, t + [a]) == Some(State(next, map[1 := s]))
  {
    AfterMore(t, State(c, map[1 := r]), a);
    assert map[1 := r][1 := s] == map[1 := s];
  }

  lemma {:induction false} Turned(t1: seq<Action>, c: Core, r: Run)
    requires After(INITIAL, t1) == Some(State(c, map[1 := r])) && r == Run(AtTop, [Idle], 0, false, false, 0, 0, 0, 0)
    ensures After(INITIAL, t1 + [Produce(1, true)] + [Produce(1, true)] + [Produce(1, true)])
      == Some(State(c, map[1 := r.(queue := 1, enqueued := 1)]))
  {
    var a := Produce(1, true);
    StepTo(t1, c, r, a, c, r.(pc := Waiting));
    StepTo(t1 + [a], c, r.(pc := Waiting), a, c, r.(pc := Offering));
    StepTo(t1 + [a] + [a], c, r.(pc := Offering), a, c, r.(queue := 1, enqueued := 1));
  }

  lemma {:induction false} WorkerTo(t: seq<Action>, c: Core, r: Run, next: Worker, o: Outcome)
    requires After(INITIAL, t) == Some(State(c, map[1 := r])) && |r.workers| == 1
    requires WorkerStep(r, 0) == Some(r.(workers := r.workers[0 := next]))
    ensures After(INITIAL, t + [Work(1, 0, o)]) == Some(State(WorkerCounts(c, r.workers[0], o), map[1 := r.(workers := [next])]))
  {
    assert r.workers[0 := next] == [next];
    StepTo(t, c, r, Work(1, 0, o), WorkerCounts(c, r.workers[0], o), r.(workers := [next]));
  }

  lemma {:induction false} Worked(t: seq<Action>, c: Core, r: Run, o: Outcome)
    requires After(INITIAL, t) == Some(State(c, map[1 := r])) && r == Run(AtTop, [Idle], 1, false, false, 1, 0, 0, 0)
    ensures After(INITIAL, t + [Work(1, 0, o)] + [Work(1, 0, o)] + [Work(1, 0, o)] + [Work(1, 0, o)] + [Work(1, 0, o)])
      == Some(State(Counting(c.(attempted := c.attempted + 1), o), map[1 := r.(queue := 0, taken := 1)]))
  {
    var w, q := Work(1, 0, o), r.(queue := 0, taken := 1);
    assert [Idle][0 := Received] == [Received];
    StepTo(t, c, r, w, c, q.(workers := [Received]));
    Answered(t + [w], c, q.(workers := [Received]), o);
  }

  lemma {:induction false} Answered(t: seq<Action>, c: Core, q: Run, o: Outcome)
    requires After(INITIAL, t) == Some(State(c, map[1 := q])) && q.workers == [Received]
    ensures After(INITIAL, t + [Work(1, 0, o)] + [Work(1, 0, o)] + [Work(1, 0, o)] + [Work(1, 0, o)])
      == Some(State(Counting(c.(attempted := c.attempted + 1), o), map[1 := q.(workers := [Idle])]))
  {
    var w := Work(1, 0, o);
    var c1 := c.(attempted := c.attempted + 1);
    var c2 := c1.(inFlight := c1.inFlight + 1);
    WorkerTo(t, c, q, Worker.Attempted, o);
    WorkerTo(t + [w], c1, q.(workers := [Worker.Attempted]), Sending, o);
    Classed(t + [w] + [w], c2, q.(workers := [Sending]), o);
    assert Counting(c2, o).(inFlight := c2.inFlight - 1) == Counting(c1, o);
  }

  lemma {:induction false} Classed(t: seq<Action>, c: Core, q: Run, o: Outcome)
    requires After(INITIAL, t) == Some(State(c, map[1 := q])) && q.workers == [Sending]
    ensures After(INITIAL, t + [Work(1, 0, o)] + [Work(1, 0, o)])
      == Some(State(Counting(c, o).(inFlight := c.inFlight - 1), map[1 := q.(workers := [Idle])]))
  {
    var w := Work(1, 0, o);
    WorkerTo(t, c, q, Classified, o);
    WorkerTo(t + [w], Counting(c, o), q.(workers := [Classified]), Idle, o);
  }
}
