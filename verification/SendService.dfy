/** The controller object itself: its critical sections and counter updates, one method each. */
module SendService {
  import opened SendController

  class Controller {
    var running: bool
    var draining: bool
    var gen: nat
    var attempted: nat
    var succeeded: nat
    var failed: nat
    var backpressure: nat
    var canceled: nat
    var inFlight: int

    function View(): Core
      reads this
    {
      Core(running, draining, gen, attempted, succeeded, failed, backpressure, canceled, inFlight)
    }

    constructor ()
      ensures View() == IDLE
    {
      running, draining, gen := false, false, 0;
      attempted, succeeded, failed, backpressure, canceled, inFlight := 0, 0, 0, 0, 0, 0;
    }

    // The locked part of Start. The answers are tried in this order.
    method Start(arcade: bool) returns (answer: StartAnswer)
      modifies this
      ensures answer == StartAnswerFor(old(View()), arcade)
      ensures answer == AlreadyRunning <==> old(running)
      ensures answer == StillDraining <==> !old(running) && old(draining)
      ensures answer == LegacyTarget <==> !old(running) && !old(draining) && !arcade
      ensures answer == Started ==>
        && running && !draining && gen == old(gen) + 1 && inFlight == old(inFlight)
        && attempted == succeeded == failed == backpressure == canceled == 0
      ensures View() == if answer == Started then StartedCore(old(View())) else old(View())
    {
      if running {
        return AlreadyRunning;
      }
      if draining {
        return StillDraining;
      }
      if !arcade {
        return LegacyTarget;
      }
      running, draining := true, false;
      attempted, succeeded, failed, backpressure, canceled := 0, 0, 0, 0, 0;
      gen := gen + 1;
      answer := Started;
    }

    method Stop()
      modifies this
      ensures View() == StoppedCore(old(View()))
      ensures draining == (old(draining) || old(running)) && running == old(running) && gen == old(gen)
    {
      if !running {
        return;
      }
      draining := true;
    }

    // The end of run g.
    method Teardown(g: nat)
      modifies this
      ensures View() == TornDown(old(View()), g)
      ensures if g == old(gen) then !running && !draining else running == old(running) && draining == old(draining)
    {
      if gen == g {
        running, draining := false, false;
      }
    }

    // One send by one worker, with the answer o from the sender: the whole of it changes the
    // counters as the worker's four counting steps do, and leaves nothing in flight.
    method SendOne(o: Outcome)
      modifies this
      ensures attempted == old(attempted) + 1 && inFlight == old(inFlight)
      ensures succeeded == old(succeeded) + if o == Sent then 1 else 0
      ensures failed == old(failed) + if o == Failure then 1 else 0
      ensures backpressure == old(backpressure) + if o == NoCoins then 1 else 0
      ensures canceled == old(canceled) + if o == Aborted then 1 else 0
      ensures View() == Counting(old(View()).(attempted := old(attempted) + 1), o)
      ensures View() == WorkerCounts(WorkerCounts(WorkerCounts(WorkerCounts(
                          old(View()), Received, o), Worker.Attempted, o), Sending, o), Classified, o)
    {
      attempted := attempted + 1;
      inFlight := inFlight + 1;
      match o {
        case Sent => succeeded := succeeded + 1;
        case Aborted => canceled := canceled + 1;
        case NoCoins => backpressure := backpressure + 1;
        case Failure => failed := failed + 1;
      }
      inFlight := inFlight - 1;
    }
  }
}
