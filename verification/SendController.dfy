/**
 * The sustained send (internal/walletsvc/send.go): one producer, a bounded channel and a pool of
 * workers per run, under a controller that starts, stops and tears runs down.
 *
 * Every shared access is one atomic action; a trace is any interleaving of them. SendOne is an
 * action that answers with any outcome, and contexts may be cancelled at any time.
 */
module SendController {
  import opened Basics

  const MIN_WORKERS := 1
  const MAX_WORKERS := 8
  const MIN_TPS := 0.05
  const MAX_TPS := 20.0

  // ---- the controller's own fields -------------------------------------------------------

  datatype Outcome = Sent | Failure | NoCoins | Aborted

  datatype Core = Core(
    running: bool,
    draining: bool,
    gen: nat,
    attempted: nat,
    succeeded: nat,
    failed: nat,
    backpressure: nat,
    canceled: nat,
    inFlight: int
  )

  const IDLE := Core(false, false, 0, 0, 0, 0, 0, 0, 0)

  datatype StartAnswer = Started | AlreadyRunning | StillDraining | LegacyTarget

  function StartAnswerFor(c: Core, arcade: bool): StartAnswer {
    if c.running then AlreadyRunning else if c.draining then StillDraining else if !arcade then LegacyTarget else Started
  }

  // Start under the lock: the counters start over, inFlight does not.
  function StartedCore(c: Core): Core {
    Core(true, false, c.gen + 1, 0, 0, 0, 0, 0, c.inFlight)
  }

  function StoppedCore(c: Core): Core {
    if c.running then c.(draining := true) else c
  }

  // The teardown at the end of the run numbered g.
  function TornDown(c: Core, g: nat): Core {
    if c.gen == g then c.(running := false, draining := false) else c
  }

  function Counting(c: Core, o: Outcome): Core {
    match o
    case Sent => c.(succeeded := c.succeeded + 1)
    case Failure => c.(failed := c.failed + 1)
    case NoCoins => c.(backpressure := c.backpressure + 1)
    case Aborted => c.(canceled := c.canceled + 1)
  }

  function Outcomes(c: Core): nat { c.succeeded + c.failed + c.backpressure + c.canceled }

  function ClampInt(v: int, lo: int, hi: int): int { if v < lo then lo else if v > hi then hi else v }

  function ClampReal(v: real, lo: real, hi: real): real { if v < lo then lo else if v > hi then hi else v }

  // How many workers a request gets: zero or less means two.
  function Workers(requested: int): (n: nat)
    ensures MIN_WORKERS <= n <= MAX_WORKERS
    ensures MIN_WORKERS <= requested <= MAX_WORKERS ==> n == requested
    ensures requested <= 0 ==> n == 2
    ensures requested > MAX_WORKERS ==> n == MAX_WORKERS
  {
    ClampInt(if requested <= 0 then 2 else requested, MIN_WORKERS, MAX_WORKERS)
  }

  function Rate(requested: real): (tps: real)
    ensures MIN_TPS <= tps <= MAX_TPS
    ensures MIN_TPS <= requested <= MAX_TPS ==> tps == requested
    ensures requested <= 0.0 ==> tps == 1.0
    ensures 0.0 < requested < MIN_TPS ==> tps == MIN_TPS
    ensures requested > MAX_TPS ==> tps == MAX_TPS
  {
    ClampReal(if requested <= 0.0 then 1.0 else requested, MIN_TPS, MAX_TPS)
  }

  // ---- one run ---------------------------------------------------------------------------

  datatype Producer =
    | AtTop      // about to wait for the rate limiter
    | Waiting    // inside Wait
    | Offering   // at the select between cancellation and the channel
    | Closing    // out of the loop, about to close the channel
    | Draining   // waiting for the workers
    | Ending     // about to take the lock for teardown
    | Ended

  datatype Worker =
    | Idle        // about to receive
    | Received    // holds a job
    | Attempted   // counted it in attempted
    | Sending     // counted it in inFlight; inside SendOne
    | Classified  // counted its outcome; about to leave inFlight
    | Exited

  datatype Run = Run(
    pc: Producer,
    workers: seq<Worker>,
    queue: nat,          // jobs in the channel, whose capacity is the number of workers
    closed: bool,
    cancelled: bool,
    enqueued: nat,
    taken: nat,
    lateEnqueued: nat,   // of those, after cancellation
    lateTaken: nat
  )

  function Pool(workers: nat): (ws: seq<Worker>)
    ensures |ws| == workers && forall i | 0 <= i < workers :: ws[i] == Idle
  {
    if workers == 0 then [] else Pool(workers - 1) + [Idle]
  }

  function NewRun(workers: nat): Run {
    Run(AtTop, Pool(workers), 0, false, false, 0, 0, 0, 0)
  }

  datatype State = State(c: Core, runs: map<nat, Run>)

  const INITIAL := State(IDLE, map[])

  datatype Action =
    | Start(requestedWorkers: int, arcade: bool)
    | Stop
    | Cancel(g: nat)               // the stop's cancel, the duration's end, or the parent's
    | Produce(g: nat, go: bool)    // one producer step; go picks between the ways on
    | Work(g: nat, i: nat, o: Outcome)

  // One step of a run's producer. With go false it gives up where it may: Wait can also refuse
  // because the deadline is nearer than the next token.
  function ProducerStep(r: Run, go: bool): Option<Run> {
    match r.pc
    case AtTop =>
      if go then if r.cancelled then None else Some(r.(pc := Waiting)) else Some(r.(pc := Closing))
    case Waiting => Some(r.(pc := if go then Offering else Closing))
    case Offering =>
      if go then
        if r.queue < |r.workers| then
          Some(r.(pc := AtTop, queue := r.queue + 1, enqueued := r.enqueued + 1,
                  lateEnqueued := r.lateEnqueued + if r.cancelled then 1 else 0))
        else None
      else if r.cancelled then Some(r.(pc := Closing))
      else None
    case Closing => Some(r.(pc := Draining, closed := true))
    case Draining => if forall i | 0 <= i < |r.workers| :: r.workers[i] == Exited then Some(r.(pc := Ending)) else None
    case Ending => Some(r.(pc := Ended))
    case Ended => None
  }

  function WorkerStep(r: Run, i: nat): Option<Run>
    requires i < |r.workers|
  {
    match r.workers[i]
    case Idle =>
      if r.queue > 0 then
        Some(r.(workers := r.workers[i := Received], queue := r.queue - 1, taken := r.taken + 1,
                lateTaken := r.lateTaken + if r.cancelled then 1 else 0))
      else if r.closed then Some(r.(workers := r.workers[i := Exited]))
      else None
    case Received => Some(r.(workers := r.workers[i := Attempted]))
    case Attempted => Some(r.(workers := r.workers[i := Sending]))
    case Sending => Some(r.(workers := r.workers[i := Classified]))
    case Classified => Some(r.(workers := r.workers[i := Idle]))
    case Exited => None
  }

  // What a worker's step does to the controller's counters.
  function WorkerCounts(c: Core, w: Worker, o: Outcome): Core {
    match w
    case Received => c.(attempted := c.attempted + 1)
    case Attempted => c.(inFlight := c.inFlight + 1)
    case Sending => Counting(c, o)
    case Classified => c.(inFlight := c.inFlight - 1)
    case _ => c
  }

  function Next(s: State, a: Action): Option<State> {
    match a
    case Start(n, arcade) =>
      if StartAnswerFor(s.c, arcade) != Started then Some(s)
      else Some(State(StartedCore(s.c), s.runs[s.c.gen + 1 := NewRun(Workers(n))]))
    case Stop => Some(s.(c := StoppedCore(s.c)))
    case Cancel(g) => if g in s.runs then Some(s.(runs := s.runs[g := s.runs[g].(cancelled := true)])) else None
    case Produce(g, go) =>
      if g !in s.runs then None
      else
        var r := ProducerStep(s.runs[g], go);
        if r.None? then None
        else Some(State(if s.runs[g].pc == Ending then TornDown(s.c, g) else s.c, s.runs[g := r.value]))
    case Work(g, i, o) =>
      if g !in s.runs || i >= |s.runs[g].workers| then None
      else
        var r := WorkerStep(s.runs[g], i);
        if r.None? then None
        else Some(State(WorkerCounts(s.c, s.runs[g].workers[i], o), s.runs[g := r.value]))
  }

  function After(s: State, trace: seq<Action>): Option<State> {
    if trace == [] then Some(s)
    else
      match After(s, trace[..|trace| - 1])
      case None => None
      case Some(t) => Next(t, trace[|trace| - 1])
  }

  ghost predicate Reachable(s: State) {
    exists trace :: After(INITIAL, trace) == Some(s)
  }

  // ---- the invariant ---------------------------------------------------------------------

  // How many workers are at w.
  function At(ws: seq<Worker>, w: Worker): (n: nat)
    ensures n <= |ws|
  {
    if ws == [] then 0 else At(ws[..|ws| - 1], w) + if ws[|ws| - 1] == w then 1 else 0
  }

  lemma {:induction false} NobodyAt(ws: seq<Worker>, w: Worker)
    requires w !in ws
    ensures At(ws, w) == 0
  {
    if ws != [] {
      NobodyAt(ws[..|ws| - 1], w);
    }
  }

  function Count(r: Run, w: Worker): nat { At(r.workers, w) }

  ghost predicate RunInv(r: Run) {
    && MIN_WORKERS <= |r.workers| <= MAX_WORKERS
    && r.queue <= |r.workers|
    && r.enqueued == r.taken + r.queue
    && (r.closed <==> r.pc in {Draining, Ending, Ended})
    && (Exited in r.workers ==> r.closed && r.queue == 0)
    && (r.pc in {Ending, Ended} ==> forall i | 0 <= i < |r.workers| :: r.workers[i] == Exited)
    && (!r.cancelled ==> r.lateEnqueued == r.lateTaken == 0)
    && r.lateEnqueued + (if r.cancelled && r.pc in {Waiting, Offering} then 1 else 0) <= 1
    && r.lateTaken + r.queue <= |r.workers| + r.lateEnqueued
  }

  // The counters account for the run numbered gen.
  ghost predicate Accounts(c: Core, r: Run) {
    && r.taken == c.attempted + Count(r, Received)
    && c.attempted == Outcomes(c) + Count(r, Attempted) + Count(r, Sending)
    && c.inFlight == Count(r, Sending) + Count(r, Classified)
  }

  ghost predicate Inv(s: State) {
    && (s.c.draining ==> s.c.running)
    && (forall g | g in s.runs :: 1 <= g <= s.c.gen && RunInv(s.runs[g]))
    && (forall g | g in s.runs && (g < s.c.gen || !s.c.running) :: s.runs[g].pc == Ended)
    && (s.c.gen > 0 ==> s.c.gen in s.runs && Accounts(s.c, s.runs[s.c.gen]))
    && (s.c.gen == 0 ==> s.c == IDLE)
    && (s.c.running ==> s.runs[s.c.gen].pc != Ended)
  }

  lemma {:induction false} ProducerKeeps(r: Run, go: bool)
    requires RunInv(r) && ProducerStep(r, go).Some?
    ensures RunInv(ProducerStep(r, go).value)
  {
  }

  lemma {:induction false} WorkerKeeps(r: Run, i: nat)
    requires RunInv(r) && i < |r.workers| && WorkerStep(r, i).Some?
    ensures RunInv(WorkerStep(r, i).value)
  {
  }

  lemma {:induction false} CountMoved(ws: seq<Worker>, i: nat, x: Worker, w: Worker)
    requires i < |ws|
    ensures At(ws[i := x], w) == At(ws, w) - (if ws[i] == w then 1 else 0) + (if x == w then 1 else 0)
  {
    var n := |ws| - 1;
    if i < n {
      assert ws[i := x][..n] == ws[..n][i := x];
      CountMoved(ws[..n], i, x, w);
    } else {
      assert ws[i := x][..n] == ws[..n];
    }
  }

  // Where a step takes worker i, and what else of the run it moves.
  lemma {:induction false} WorkerMoves(r: Run, i: nat) returns (x: Worker)
    requires i < |r.workers| && WorkerStep(r, i).Some?
    ensures var next := WorkerStep(r, i).value;
            && next.workers == r.workers[i := x] && next.pc == r.pc
            && next.taken == r.taken + (if x == Received then 1 else 0)
    ensures match r.workers[i]
            case Idle => x in {Received, Exited}
            case Received => x == Attempted
            case Attempted => x == Sending
            case Sending => x == Classified
            case Classified => x == Idle
            case Exited => false
  {
    x := WorkerStep(r, i).value.workers[i];
  }

  lemma {:induction false} WorkerAccounts(c: Core, r: Run, i: nat, o: Outcome)
    requires Accounts(c, r) && i < |r.workers| && WorkerStep(r, i).Some?
    ensures Accounts(WorkerCounts(c, r.workers[i], o), WorkerStep(r, i).value)
  {
    var x := WorkerMoves(r, i);
    CountMoved(r.workers, i, x, Received);
    CountMoved(r.workers, i, x, Attempted);
    CountMoved(r.workers, i, x, Sending);
    CountMoved(r.workers, i, x, Classified);
    assert Outcomes(WorkerCounts(c, r.workers[i], o)) == Outcomes(c) + if r.workers[i] == Sending then 1 else 0;
  }

  // No worker of a new run holds a job.
  lemma {:induction false} NewRunAccounts(c: Core, n: nat)
    requires MIN_WORKERS <= n <= MAX_WORKERS && c.attempted == Outcomes(c) == 0 && c.inFlight == 0
    ensures RunInv(NewRun(n)) && Accounts(c, NewRun(n))
  {
    var ws := NewRun(n).workers;
    NobodyAt(ws, Received);
    NobodyAt(ws, Attempted);
    NobodyAt(ws, Sending);
    NobodyAt(ws, Classified);
  }

  // A finished run leaves nothing in flight.
  lemma {:induction false} EndedAccounts(c: Core, r: Run)
    requires RunInv(r) && Accounts(c, r) && r.pc in {Ending, Ended}
    ensures c.inFlight == 0 && c.attempted == Outcomes(c) == r.taken == r.enqueued
  {
    NobodyAt(r.workers, Received);
    NobodyAt(r.workers, Attempted);
    NobodyAt(r.workers, Sending);
    NobodyAt(r.workers, Classified);
    assert r.workers[0] == Exited;
  }

  lemma {:induction false} QuietStart(s: State)
    requires Inv(s) && !s.c.running
    ensures s.c.inFlight == 0
  {
    if s.c.gen > 0 { EndedAccounts(s.c, s.runs[s.c.gen]); }
  }

  lemma {:induction false} StartKeepsInv(s: State, n: int)
    requires Inv(s) && !s.c.running
    ensures Inv(State(StartedCore(s.c), s.runs[s.c.gen + 1 := NewRun(Workers(n))]))
  {
    QuietStart(s);
    AllOver(s);
    FirstOfRun(s.runs, StartedCore(s.c), s.c.gen + 1, Workers(n));
  }

  lemma {:induction false} FirstOfRun(runs: map<nat, Run>, c: Core, gen: nat, workers: nat)
    requires forall g | g in runs :: 1 <= g < gen && runs[g].pc == Ended && RunInv(runs[g])
    requires c == Core(true, false, gen, 0, 0, 0, 0, 0, 0) && gen > 0 && MIN_WORKERS <= workers <= MAX_WORKERS
    ensures Inv(State(c, runs[gen := NewRun(workers)]))
  {
    NewRunAccounts(c, workers);
    RunAdded(runs, c, gen, NewRun(workers));
  }

  lemma {:induction false} OneAdded(runs: map<nat, Run>, more: map<nat, Run>, n: nat, r: Run)
    requires more == runs[n := r] && RunInv(r) && n > 0
    requires forall g | g in runs :: 1 <= g < n && runs[g].pc == Ended && RunInv(runs[g])
    ensures forall g | g in more :: 1 <= g <= n && RunInv(more[g])
    ensures forall g | g in more && g < n :: more[g].pc == Ended
  {
  }

  lemma {:induction false} AllOver(s: State)
    requires Inv(s) && !s.c.running
    ensures forall g | g in s.runs :: 1 <= g <= s.c.gen && s.runs[g].pc == Ended && RunInv(s.runs[g])
  {
  }

  lemma {:induction false} RunAdded(runs: map<nat, Run>, c: Core, n: nat, r: Run)
    requires forall g | g in runs :: 1 <= g < n && runs[g].pc == Ended && RunInv(runs[g])
    requires c.gen == n > 0 && c.running && r.pc != Ended && RunInv(r) && Accounts(c, r)
    ensures Inv(State(c, runs[n := r]))
  {
    OneAdded(runs, runs[n := r], n, r);
    NewestIs(State(c, runs[n := r]), n, r);
  }

  // A state whose runs are kept and whose newest run is the live one.
  lemma {:induction false} NewestIs(t: State, n: nat, r: Run)
    requires t.c.gen == n > 0 && t.c.running && n in t.runs && t.runs[n] == r && r.pc != Ended && Accounts(t.c, r)
    requires forall g | g in t.runs :: 1 <= g <= n && RunInv(t.runs[g])
    requires forall g | g in t.runs && g < n :: t.runs[g].pc == Ended
    ensures Inv(t)
  {
  }

  // The live run may be replaced by any run that keeps the books.
  lemma {:induction false} LiveRunReplaced(s: State, c: Core, r: Run)
    requires Inv(s) && s.c.gen > 0 && c.gen == s.c.gen
    requires c.draining ==> c.running
    requires c.running <==> r.pc != Ended
    requires RunInv(r) && Accounts(c, r)
    ensures Inv(State(c, s.runs[s.c.gen := r]))
  {
  }

  lemma {:induction false} ProduceKeepsInv(s: State, g: nat, go: bool)
    requires Inv(s) && Next(s, Produce(g, go)).Some?
    ensures Inv(Next(s, Produce(g, go)).value)
  {
    assert g == s.c.gen;
    ProducerKeeps(s.runs[g], go);
    ProducerAccounts(s.c, s.runs[g], go);
    LiveRunReplaced(s, Next(s, Produce(g, go)).value.c, ProducerStep(s.runs[g], go).value);
  }

  // The producer moves no worker and no job a worker has.
  lemma {:induction false} ProducerAccounts(c: Core, r: Run, go: bool)
    requires Accounts(c, r) && ProducerStep(r, go).Some?
    ensures Accounts(c, ProducerStep(r, go).value)
  {
  }

  lemma {:induction false} WorkKeepsInv(s: State, g: nat, i: nat, o: Outcome)
    requires Inv(s) && Next(s, Work(g, i, o)).Some?
    ensures Inv(Next(s, Work(g, i, o)).value)
  {
    assert g == s.c.gen;
    var x := WorkerMoves(s.runs[g], i);
    WorkerKeeps(s.runs[g], i);
    WorkerAccounts(s.c, s.runs[g], i, o);
    LiveRunReplaced(s, WorkerCounts(s.c, s.runs[g].workers[i], o), WorkerStep(s.runs[g], i).value);
  }

  lemma {:induction false} StepKeepsInv(s: State, a: Action)
    requires Inv(s) && Next(s, a).Some?
    ensures Inv(Next(s, a).value)
  {
    match a
    case Start(n, arcade) => if StartAnswerFor(s.c, arcade) == Started { StartKeepsInv(s, n); }
    case Stop =>
    case Cancel(g) =>
    case Produce(g, go) => ProduceKeepsInv(s, g, go);
    case Work(g, i, o) => WorkKeepsInv(s, g, i, o);
  }

  lemma {:induction false} TraceKeepsInv(s: State, trace: seq<Action>)
    requires Inv(s) && After(s, trace).Some?
    ensures Inv(After(s, trace).value)
  {
    if trace != [] {
      var n := |trace| - 1;
      TraceKeepsInv(s, trace[..n]);
      StepKeepsInv(After(s, trace[..n]).value, trace[n]);
    }
  }

  lemma {:induction false} ReachableInv(s: State)
    requires Reachable(s)
    ensures Inv(s)
  {
    var trace :| After(INITIAL, trace) == Some(s);
    TraceKeepsInv(INITIAL, trace);
  }
}
