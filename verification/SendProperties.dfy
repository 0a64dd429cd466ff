/** What holds of the sustained send in every reachable state, and how a run winds down. */
module SendProperties {
  import opened Basics
  import opened SendController

  // Workers that counted an attempt and not yet its outcome.
  function Unclassified(r: Run): nat { Count(r, Attempted) + Count(r, Sending) }

  lemma {:induction false} TwoPlaces(ws: seq<Worker>, a: Worker, b: Worker)
    requires a != b
    ensures At(ws, a) + At(ws, b) <= |ws|
  {
    if ws != [] {
      TwoPlaces(ws[..|ws| - 1], a, b);
    }
  }

  // Every attempt is an outcome or still with a worker, and never more than the pool is in flight.
  lemma {:induction false} SendConservation(s: State)
    requires Reachable(s) && s.c.gen > 0
    ensures s.c.gen in s.runs
    ensures s.c.attempted == s.c.succeeded + s.c.failed + s.c.backpressure + s.c.canceled
                             + Unclassified(s.runs[s.c.gen])
    ensures 0 <= s.c.inFlight <= |s.runs[s.c.gen].workers| <= MAX_WORKERS
  {
    ReachableInv(s);
    TwoPlaces(s.runs[s.c.gen].workers, Sending, Classified);
  }

  // At most one run is live, only it can reach its teardown, and draining implies running.
  lemma {:induction false} OneLiveRun(s: State, g: nat)
    requires Reachable(s)
    ensures s.c.draining ==> s.c.running
    ensures g in s.runs && s.runs[g].pc != Ended ==> g == s.c.gen && s.c.running
    ensures g in s.runs && s.runs[g].pc == Ending ==> TornDown(s.c, g) == s.c.(running := false, draining := false)
  {
    ReachableInv(s);
  }

  // A start that is accepted finds nothing left of earlier runs: no worker that could still move
  // a counter, no queued job, nothing in flight. The draining answer is never given.
  lemma {:induction false} StartFindsQuiet(s: State, arcade: bool)
    requires Reachable(s)
    ensures StartAnswerFor(s.c, arcade) != StillDraining
    ensures StartAnswerFor(s.c, arcade) == Started ==>
              && s.c.inFlight == 0
              && forall g | g in s.runs ::
                   s.runs[g].queue == 0 && forall i | 0 <= i < |s.runs[g].workers| :: s.runs[g].workers[i] == Exited
  {
    ReachableInv(s);
    if StartAnswerFor(s.c, arcade) == Started {
      if s.c.gen > 0 {
        EndedAccounts(s.c, s.runs[s.c.gen]);
      }
      forall g | g in s.runs ensures s.runs[g].queue == 0 {
        assert s.runs[g].workers[0] == Exited;
      }
    }
  }

  // After cancellation at most one more job goes in and at most one more than the pool comes out.
  lemma {:induction false} DrainIsBounded(s: State, g: nat)
    requires Reachable(s) && g in s.runs && s.runs[g].cancelled
    ensures s.runs[g].lateEnqueued <= 1
    ensures s.runs[g].lateTaken <= |s.runs[g].workers| + 1 <= MAX_WORKERS + 1
  {
    ReachableInv(s);
  }

  // When a run ends every job it enqueued was attempted, and every attempt has its outcome.
  lemma {:induction false} EndedRunIsAccounted(s: State)
    requires Reachable(s) && s.c.gen > 0 && s.c.gen in s.runs && s.runs[s.c.gen].pc in {Ending, Ended}
    ensures s.c.attempted == s.runs[s.c.gen].enqueued
    ensures s.c.attempted == s.c.succeeded + s.c.failed + s.c.backpressure + s.c.canceled
    ensures s.c.inFlight == 0
  {
    ReachableInv(s);
    EndedAccounts(s.c, s.runs[s.c.gen]);
  }

  // ---- winding down ----------------------------------------------------------------------

  // Production is over or has been told to stop.
  predicate WindingDown(r: Run) {
    r.cancelled || r.pc in {Closing, Draining, Ending, Ended}
  }

  // A cancelled run winds down, and no action calls its cancellation off.
  lemma {:induction false} CancelWindsDown(s: State, g: nat, a: Action)
    requires Inv(s) && g in s.runs && Next(s, a).Some? && (a == Cancel(g) || s.runs[g].cancelled)
    ensures g in Next(s, a).value.runs && Next(s, a).value.runs[g].cancelled && WindingDown(Next(s, a).value.runs[g])
  {
  }

  function WorkerCost(w: Worker): nat {
    match w
    case Exited => 0
    case Idle => 1
    case Classified => 2
    case Sending => 3
    case Attempted => 4
    case Received => 5
  }

  function WorkersCost(ws: seq<Worker>): nat {
    if ws == [] then 0 else WorkersCost(ws[..|ws| - 1]) + WorkerCost(ws[|ws| - 1])
  }

  function ProducerCost(p: Producer): nat {
    match p
    case Ended => 0
    case Ending => 1
    case Draining => 2
    case Closing => 3
    case AtTop => 4
    case Offering => 10
    case Waiting => 11
  }

  // An upper bound on the steps a run winding down has left.
  function StepsLeft(r: Run): nat {
    ProducerCost(r.pc) + 5 * r.queue + WorkersCost(r.workers)
  }

  lemma {:induction false} CostMoved(ws: seq<Worker>, i: nat, x: Worker)
    requires i < |ws|
    ensures WorkersCost(ws[i := x]) == WorkersCost(ws) - WorkerCost(ws[i]) + WorkerCost(x)
  {
    var n := |ws| - 1;
    if i < n {
      assert ws[i := x][..n] == ws[..n][i := x];
      CostMoved(ws[..n], i, x);
    } else {
      assert ws[i := x][..n] == ws[..n];
    }
  }

  lemma {:induction false} CostBounded(ws: seq<Worker>)
    ensures WorkersCost(ws) <= 5 * |ws|
  {
    if ws != [] {
      CostBounded(ws[..|ws| - 1]);
    }
  }

  predicate Internal(a: Action, g: nat) {
    (a.Produce? || a.Work?) && a.g == g
  }

  lemma {:induction false} WorkWindsDown(s: State, g: nat, a: Action)
    requires Next(s, a).Some? && g in s.runs && Inv(s) && WindingDown(s.runs[g]) && a.Work? && Internal(a, g)
    ensures g in Next(s, a).value.runs && WindingDown(Next(s, a).value.runs[g])
    ensures StepsLeft(Next(s, a).value.runs[g]) < StepsLeft(s.runs[g])
  {
    var x := WorkerMoves(s.runs[g], a.i);
    CostMoved(s.runs[g].workers, a.i, x);
  }

  // Each of its own steps brings a run that is winding down closer to its end.
  lemma {:induction false} StepWindsDown(s: State, g: nat, a: Action)
    requires Next(s, a).Some? && g in s.runs && Inv(s) && WindingDown(s.runs[g])
    ensures var t := Next(s, a).value;
            && g in t.runs && WindingDown(t.runs[g])
            && StepsLeft(t.runs[g]) + (if Internal(a, g) then 1 else 0) <= StepsLeft(s.runs[g])
  {
    if Internal(a, g) && a.Work? { WorkWindsDown(s, g, a); }
  }

  function InternalSteps(trace: seq<Action>, g: nat): nat {
    if trace == [] then 0
    else InternalSteps(trace[..|trace| - 1], g) + if Internal(trace[|trace| - 1], g) then 1 else 0
  }

  // In any interleaving from there the run takes at most StepsLeft more steps of its own,
  lemma {:induction false} WindsDownWithin(s: State, g: nat, trace: seq<Action>)
    requires Inv(s) && g in s.runs && WindingDown(s.runs[g]) && After(s, trace).Some?
    ensures var t := After(s, trace).value;
            && g in t.runs && WindingDown(t.runs[g])
            && InternalSteps(trace, g) + StepsLeft(t.runs[g]) <= StepsLeft(s.runs[g])
    ensures StepsLeft(s.runs[g]) <= 11 + 10 * MAX_WORKERS
  {
    CostBounded(s.runs[g].workers);
    if trace != [] {
      var n := |trace| - 1;
      WindsDownWithin(s, g, trace[..n]);
      TraceKeepsInv(s, trace[..n]);
      StepWindsDown(After(s, trace[..n]).value, g, trace[n]);
    }
  }

  // and until it has ended one of its own steps is always possible.
  lemma {:induction false} NeverStuck(s: State, g: nat) returns (a: Action)
    requires Inv(s) && g in s.runs && WindingDown(s.runs[g]) && s.runs[g].pc != Ended
    ensures Internal(a, g) && Next(s, a).Some?
  {
    var r := s.runs[g];
    if r.pc == Draining && exists i :: 0 <= i < |r.workers| && r.workers[i] != Exited {
      var i :| 0 <= i < |r.workers| && r.workers[i] != Exited;
      a := Work(g, i, Sent);
    } else {
      a := Produce(g, false);
    }
  }
}
