/**
 * The auto-miner's schedule (internal/automine/automine.go): each fire moves the deadline one interval on
 * from the last deadline, or from now if that is already past. Times are integers of a clock that does
 * not go back; one event is what the loop, or a request, does under the service's lock.
 */
module Metronome {

  const MIN_INTERVAL: int := 10_000_000_000
  const MAX_INTERVAL: int := 86_400_000_000_000
  const DEFAULT_INTERVAL: int := 600_000_000_000

  datatype Config = Config(enabled: bool, interval: int, node: string, blocks: int)

  ghost predicate InBounds(c: Config) { MIN_INTERVAL <= c.interval <= MAX_INTERVAL && 1 <= c.blocks <= 5 }

  method Clamp(c: Config) returns (r: Config)
    ensures InBounds(r) && r.enabled == c.enabled && r.node == c.node
    ensures InBounds(c) ==> r == c
    ensures r.interval ==
      if c.interval <= 0 then DEFAULT_INTERVAL
      else if c.interval < MIN_INTERVAL then MIN_INTERVAL
      else if c.interval > MAX_INTERVAL then MAX_INTERVAL
      else c.interval
    ensures r.blocks == if c.blocks < 1 then 1 else if c.blocks > 5 then 5 else c.blocks
  {
    r := c;
    if r.interval <= 0 { r := r.(interval := DEFAULT_INTERVAL); }
    if r.interval < MIN_INTERVAL { r := r.(interval := MIN_INTERVAL); }
    if r.interval > MAX_INTERVAL { r := r.(interval := MAX_INTERVAL); }
    if r.blocks <= 0 {
      r := r.(blocks := 1);
    } else if r.blocks > 5 {
      r := r.(blocks := 5);
    }
  }

  // ---- deadlines -------------------------------------------------------------------------

  // The deadline after a fire at time f.
  function NextDeadline(d: int, interval: int, f: int): int {
    if d + interval < f then f + interval else d + interval
  }

  // The deadline after these fires, from a first one.
  function Deadline(first: int, interval: int, fires: seq<int>): int {
    if fires == [] then first
    else NextDeadline(Deadline(first, interval, fires[..|fires| - 1]), interval, fires[|fires| - 1])
  }

  // No fire came before its deadline.
  ghost predicate Due(first: int, interval: int, fires: seq<int>) {
    fires == []
    || (Due(first, interval, fires[..|fires| - 1])
        && fires[|fires| - 1] >= Deadline(first, interval, fires[..|fires| - 1]))
  }

  // A fire so late that beats are skipped.
  predicate Late(first: int, interval: int, fires: seq<int>, k: nat)
    requires k < |fires|
  {
    fires[k] > Deadline(first, interval, fires[..k]) + interval
  }

  // Each deadline is at least an interval after the last, and is not past when it is set.
  lemma {:induction false} DeadlinesSpaced(first: int, interval: int, fires: seq<int>, f: int)
    requires interval > 0
    ensures Deadline(first, interval, fires + [f]) >= Deadline(first, interval, fires) + interval
    ensures Deadline(first, interval, fires + [f]) >= f
  {
    assert (fires + [f])[..|fires|] == fires;
  }

  lemma {:induction false} OneMore(n: nat, interval: int)
    ensures (n + 1) * interval == n * interval + interval
  {
  }

  lemma {:induction false} DeadlineAtLeast(first: int, interval: int, fires: seq<int>)
    requires interval > 0
    ensures Deadline(first, interval, fires) >= first + |fires| * interval
  {
    if fires != [] {
      var n := |fires| - 1;
      DeadlineAtLeast(first, interval, fires[..n]);
      OneMore(n, interval);
    }
  }

  // By time t there have been at most one fire and one more for every whole interval since the first
  // deadline, and none before it.
  lemma {:induction false} FireBound(first: int, interval: int, fires: seq<int>, t: int)
    requires interval > 0 && Due(first, interval, fires)
    requires forall k | 0 <= k < |fires| :: fires[k] <= t
    ensures t < first ==> fires == []
    ensures fires != [] ==> |fires| <= 1 + (t - first) / interval
  {
    if fires != [] {
      var n := |fires| - 1;
      DeadlineAtLeast(first, interval, fires[..n]);
      assert n * interval <= t - first;
      WholeIntervals(n, interval, t - first);
    }
  }

  lemma {:induction false} WholeIntervals(n: nat, interval: int, x: int)
    requires interval > 0 && n * interval <= x
    ensures n <= x / interval && 0 <= x
  {
    var q := x / interval;
    assert x == q * interval + x % interval;
    assert (n - q) * interval == n * interval - q * interval;
    LessThanOne(n - q, interval);
  }

  lemma {:induction false} LessThanOne(m: int, i: int)
    requires m * i < i && i > 0
    ensures m <= 0
  {
  }

  // The beat is exact, every deadline on first + k intervals, exactly as long as no fire is late enough to
  // skip.
  lemma {:induction false} ExactUnlessLate(first: int, interval: int, fires: seq<int>)
    requires interval > 0
    ensures (forall k | 0 <= k <= |fires| :: Deadline(first, interval, fires[..k]) == first + k * interval)
      <==> forall k | 0 <= k < |fires| :: !Late(first, interval, fires, k)
  {
    if forall k | 0 <= k < |fires| :: !Late(first, interval, fires, k) {
      forall k | 0 <= k <= |fires| ensures Deadline(first, interval, fires[..k]) == first + k * interval {
        ExactSoFar(first, interval, fires, k);
      }
    } else {
      var k :| 0 <= k < |fires| && Late(first, interval, fires, k);
      assert fires[..k + 1][..k] == fires[..k];
      assert Deadline(first, interval, fires[..k + 1]) > Deadline(first, interval, fires[..k]) + interval;
      OneMore(k, interval);
    }
  }

  lemma {:induction false} ExactSoFar(first: int, interval: int, fires: seq<int>, k: nat)
    requires k <= |fires| && forall j | 0 <= j < |fires| :: !Late(first, interval, fires, j)
    ensures Deadline(first, interval, fires[..k]) == first + k * interval
  {
    if k > 0 {
      ExactSoFar(first, interval, fires, k - 1);
      assert fires[..k][..k - 1] == fires[..k - 1];
      assert !Late(first, interval, fires, k - 1);
      OneMore(k - 1, interval);
    }
  }

  // ---- the loop among requests -----------------------------------------------------------

  // Where the loop is: about to read the schedule, waiting on its timer, past the timer but not yet moving
  // the deadline, past the move but not yet calling the miner, or in that call. It goes on with the
  // configuration it read.
  datatype Stage =
    | Reading
    | Waiting(due: int, cfg: Config)
    | Fired(at: int, cfg: Config)
    | Committed(cfg: Config)
    | Mining(cfg: Config)

  // `signals` counts the changes that have not woken the loop yet. The record since `since`, the last
  // change of configuration: `moved` are the times of all fires, at which the deadline was moved, and
  // `mines` counts the calls of the miner. A wait begun before the change is stale, and `shifted` says that
  // a stale fire was among them; `carried` says that the change found a call about to be made; `first` and
  // `fires` tell the schedule behind a stale fire.
  datatype State = State(
    cfg: Config, nextAt: int, signals: nat, reset: bool, stage: Stage, now: int, runs: nat, mined: nat, moves: nat,
    since: int, moved: seq<int>, mines: nat, first: int, fires: seq<int>, stale: bool, shifted: bool, carried: bool)

  datatype Event =
    | Pass(dt: nat)              // time goes by
    | Read
    | Reset                      // the wait is broken off
    | Fire                       // the timer goes off
    | Move                       // the deadline is moved
    | NoMiner
    | Call                       // the miner is called
    | Mined(blocks: nat)         // blocks is 0 if mining failed
    | Configure(cfg: Config)     // already clamped
    | Signal                     // a change wakes the loop

  function Started(cfg: Config, now: int): State {
    State(cfg, now + cfg.interval, 0, false, Reading, now, 0, 0, 0,
          now, [], 0, now + cfg.interval, [], false, false, false)
  }

  predicate Mines(c: Config) { c.enabled && c.node != "" }

  ghost predicate Enabled(s: State, e: Event) {
    match e
    case Pass(_) => true
    case Read => s.stage.Reading?
    case Reset => s.stage.Waiting? && s.reset
    case Fire => s.stage.Waiting? && s.now >= s.stage.due
    case Move => s.stage.Fired?
    case NoMiner => s.stage.Committed?
    case Call => s.stage.Committed?
    case Mined(blocks) => s.stage.Mining? && blocks <= s.stage.cfg.blocks
    case Configure(cfg) => InBounds(cfg)
    case Signal => s.signals > 0
  }

  function Moved(s: State, c: Config): State {
    var next := NextDeadline(s.nextAt, c.interval, s.now);
    s.(nextAt := next,
       stage := if Mines(c) then Committed(c) else Reading,
       moves := s.moves + 1,
       moved := s.moved + [s.now],
       first := if s.stale then next else s.first,
       fires := if s.stale then [] else s.fires + [s.now],
       shifted := s.shifted || s.stale,
       stale := false)
  }

  function Apply(s: State, e: Event): State {
    match e
    case Pass(dt) => s.(now := s.now + dt)
    case Read => s.(stage := Waiting(if s.nextAt < s.now then s.now else s.nextAt, s.cfg), stale := false)
    case Reset => s.(stage := Reading, reset := false, stale := false)
    case Fire => if s.stage.Waiting? then s.(stage := Fired(s.now, s.stage.cfg)) else s
    case Move => if s.stage.Fired? then Moved(s, s.stage.cfg) else s
    case NoMiner => s.(stage := Reading)
    case Call => if s.stage.Committed? then s.(stage := Mining(s.stage.cfg), mines := s.mines + 1) else s
    case Mined(blocks) => s.(stage := Reading, runs := s.runs + 1, mined := s.mined + blocks)
    case Configure(cfg) =>
      s.(cfg := cfg, nextAt := s.now + cfg.interval, signals := s.signals + 1, since := s.now, moved := [],
         mines := 0, first := s.now + cfg.interval, fires := [], stale := s.stage.Waiting? || s.stage.Fired?,
         shifted := false, carried := s.stage.Committed?)
    case Signal => if s.signals > 0 then s.(signals := s.signals - 1, reset := true) else s
  }

  ghost predicate Steady(s: State) {
    && InBounds(s.cfg)
    && s.nextAt == Deadline(s.first, s.cfg.interval, s.fires)
    && Due(s.first, s.cfg.interval, s.fires)
    && (forall k | 0 <= k < |s.fires| :: s.fires[k] <= s.now)
    && (if s.shifted then s.first >= s.since + s.cfg.interval + MIN_INTERVAL else s.first == s.since + s.cfg.interval)
  }

  // All fires since the change: the stale one, if there was one, and then those of the schedule.
  ghost predicate Recorded(s: State) {
    && s.since <= s.now
    && |s.moved| == |s.fires| + (if s.shifted then 1 else 0)
    && (forall k | 0 <= k < |s.fires| :: s.moved[if s.shifted then k + 1 else k] == s.fires[k])
  }

  // Every call of the miner, made or about to be, belongs to a fire since the change or was carried over it.
  ghost predicate Called(s: State) {
    var calls := s.mines + if s.stage.Committed? then 1 else 0;
    && calls <= |s.moved| + (if s.carried then 1 else 0)
    && (!Mines(s.cfg) ==> calls <= if s.shifted || s.carried then 1 else 0)
  }

  ghost predicate StageFits(s: State) {
    match s.stage
    case Reading => !s.stale
    case Waiting(due, c) => InBounds(c) && (!s.stale ==> c == s.cfg && due >= s.nextAt)
    case Fired(at, c) => InBounds(c) && at <= s.now && (!s.stale ==> c == s.cfg && at >= s.nextAt)
    case Committed(c) => InBounds(c) && Mines(c) && !s.stale
    case Mining(c) => InBounds(c) && Mines(c) && !s.stale
  }

  // Nothing is mined that no fire called for.
  ghost predicate Counted(s: State) {
    && s.mined <= 5 * s.runs && s.runs + (if s.stage.Committed? || s.stage.Mining? then 1 else 0) <= s.moves
  }

  ghost predicate Inv(s: State) {
    && Steady(s) && Recorded(s) && Called(s) && StageFits(s) && Counted(s)
    && (s.stale ==> s.fires == [] && !s.shifted && !s.carried && s.mines == 0)
  }

  lemma {:induction false} MoveKeepsInv(s: State)
    requires Inv(s) && s.stage.Fired?
    ensures Inv(Apply(s, Move))
  {
    if !s.stale { FireJoins(s.first, s.cfg.interval, s.fires, s.now); }
  }

  lemma {:induction false} MoveOf(s: State)
    requires Inv(s) && s.stage.Fired?
    ensures var t := Apply(s, Move);
      && Inv(t) && t.cfg == s.cfg && t.runs == s.runs && t.mined == s.mined
      && t.nextAt == NextDeadline(s.nextAt, s.stage.cfg.interval, s.now)
  {
    MoveKeepsInv(s);
  }

  lemma {:induction false} FireJoins(first: int, interval: int, fires: seq<int>, f: int)
    requires Due(first, interval, fires) && f >= Deadline(first, interval, fires)
    ensures Due(first, interval, fires + [f])
    ensures Deadline(first, interval, fires + [f]) == NextDeadline(Deadline(first, interval, fires), interval, f)
  {
    assert (fires + [f])[..|fires|] == fires;
  }

  lemma {:induction false} ChangeKeepsInv(s: State, cfg: Config)
    requires Inv(s) && InBounds(cfg)
    ensures Inv(Apply(s, Configure(cfg)))
  {
  }

  // The miner comes and goes.
  lemma {:induction false} MineKeepsInv(s: State, e: Event)
    requires Inv(s) && Enabled(s, e) && (e.NoMiner? || e.Call? || e.Mined?)
    ensures Inv(Apply(s, e))
  {
    var t := Apply(s, e);
    assert t.nextAt == s.nextAt && t.first == s.first && t.fires == s.fires && t.cfg == s.cfg && t.now == s.now;
    assert Steady(t) && Recorded(t);
  }

  // The clock, the reading of the schedule, the wait and what ends it.
  lemma {:induction false} WaitKeepsInv(s: State, e: Event)
    requires Inv(s) && Enabled(s, e) && (e.Pass? || e.Read? || e.Reset? || e.Fire? || e.Signal?)
    ensures Inv(Apply(s, e))
  {
    var t := Apply(s, e);
    assert t.nextAt == s.nextAt && t.first == s.first && t.fires == s.fires && t.cfg == s.cfg && t.now >= s.now;
    assert Steady(t) && Recorded(t);
  }

  lemma {:induction false} ApplyKeepsInv(s: State, e: Event)
    requires Inv(s) && Enabled(s, e)
    ensures Inv(Apply(s, e))
  {
    match e
    case Move => MoveKeepsInv(s);
    case Configure(cfg) => ChangeKeepsInv(s, cfg);
    case NoMiner => MineKeepsInv(s, e);
    case Call => MineKeepsInv(s, e);
    case Mined(_) => MineKeepsInv(s, e);
    case _ => WaitKeepsInv(s, e);
  }

  // A run of the loop among any requests, from s to t.
  ghost predicate Runs(s: State, events: seq<Event>, t: State)
    decreases |events|
  {
    if events == [] then t == s
    else Enabled(s, events[0]) && Runs(Apply(s, events[0]), events[1..], t)
  }

  lemma {:induction false} RunsKeepInv(s: State, events: seq<Event>, t: State)
    requires Inv(s) && Runs(s, events, t)
    ensures Inv(t)
    decreases |events|
  {
    if events != [] {
      ApplyKeepsInv(s, events[0]);
      RunsKeepInv(Apply(s, events[0]), events[1..], t);
    }
  }

  lemma {:induction false} RunsOn(s: State, e: Event, events: seq<Event>, t: State)
    requires Enabled(s, e) && Runs(Apply(s, e), events, t)
    ensures Runs(s, [e] + events, t)
  {
    assert ([e] + events)[1..] == events;
  }

  // However requests and the loop interleave: of all fires since the last change of configuration there is
  // at most one for every whole interval since it, and one more if a stale fire was among them; the
  // deadlines follow the schedule from a first one that is an interval behind the change unless a stale
  // fire moved it on; the miner is called at most once for each fire, and once more if the change found a
  // call about to be made; and after a change that switches mining off it is called at most once, for a
  // stale fire or as the change found it.
  lemma {:induction false} ScheduleHolds(cfg: Config, start: int, events: seq<Event>, s: State)
    requires InBounds(cfg) && Runs(Started(cfg, start), events, s)
    ensures InBounds(s.cfg) && s.nextAt == Deadline(s.first, s.cfg.interval, s.fires) && Due(s.first, s.cfg.interval, s.fires)
    ensures |s.moved| == |s.fires| + if s.shifted then 1 else 0
    ensures |s.moved| <= (s.now - s.since) / s.cfg.interval + if s.shifted then 1 else 0
    ensures s.first == s.since + s.cfg.interval <==> !s.shifted
    ensures s.mines <= |s.moved| + if s.carried then 1 else 0
    ensures !Mines(s.cfg) ==> s.mines <= if s.shifted || s.carried then 1 else 0
    ensures s.mined <= 5 * s.runs && s.runs <= s.moves
    ensures s.stage.Committed? || s.stage.Mining? ==> s.stage.cfg.enabled && s.stage.cfg.node != ""
  {
    RunsKeepInv(Started(cfg, start), events, s);
    FiresSince(s);
  }

  // A fire leads to a call of the miner exactly when mining was on, for some node, as the loop read it.
  lemma {:induction false} FireCommitsIff(s: State)
    requires s.stage.Fired?
    ensures Apply(s, Move).stage
      == if s.stage.cfg.enabled && s.stage.cfg.node != "" then Committed(s.stage.cfg) else Reading
  {
  }

  // How often a miner was called and ended, and the blocks it mined, as the events tell it.
  function Ended(events: seq<Event>): nat {
    if events == [] then 0 else (if events[0].Mined? then 1 else 0) + Ended(events[1..])
  }

  function BlocksIn(events: seq<Event>): nat {
    if events == [] then 0 else (if events[0].Mined? then events[0].blocks else 0) + BlocksIn(events[1..])
  }

  function MovesIn(events: seq<Event>): nat {
    if events == [] then 0 else (if events[0].Move? then 1 else 0) + MovesIn(events[1..])
  }

  // The counters are never reset: they are what happened since the start.
  lemma {:induction false} CountersTell(s: State, events: seq<Event>, t: State)
    requires Runs(s, events, t)
    ensures t.runs == s.runs + Ended(events) && t.mined == s.mined + BlocksIn(events) && t.moves == s.moves + MovesIn(events)
    decreases |events|
  {
    if events != [] {
      CountersStep(s, events[0]);
      CountersTell(Apply(s, events[0]), events[1..], t);
    }
  }

  lemma {:induction false} CountersStep(s: State, e: Event)
    requires Enabled(s, e)
    ensures var t := Apply(s, e);
      && t.runs == s.runs + (if e.Mined? then 1 else 0) && t.mined == s.mined + (if e.Mined? then e.blocks else 0)
      && t.moves == s.moves + (if e.Move? then 1 else 0)
  {
  }

  lemma {:induction false} FiresSince(s: State)
    requires Inv(s)
    ensures |s.fires| <= (s.now - s.since) / s.cfg.interval
  {
    FireBound(s.first, s.cfg.interval, s.fires, s.now);
    if s.fires != [] {
      var interval, x := s.cfg.interval, s.now - s.since - s.cfg.interval;
      DeadlineAtLeast(s.first, interval, s.fires[..|s.fires| - 1]);
      OneMore(|s.fires| - 1, interval);
      WholeIntervals(|s.fires|, interval, s.now - s.since);
    } else {
      WholeIntervals(0, s.cfg.interval, s.now - s.since);
    }
  }

  // ---- what a change can meet ------------------------------------------------------------

  // A change made now finds the loop past its timer, or waiting for one that can go off before the new
  // interval is over.
  predicate MeetsFire(s: State, cfg: Config) {
    s.stage.Fired? || (s.stage.Waiting? && s.stage.due < s.now + cfg.interval)
  }

  ghost predicate Unchanged(events: seq<Event>) { forall k | 0 <= k < |events| :: !events[k].Configure? }

  // What stays so behind a change that meets no fire.
  ghost predicate Kept(t: State, since: int, interval: int) {
    && t.since == since && t.cfg.interval == interval
    && (forall k | 0 <= k < |t.moved| :: t.moved[k] >= since + interval)
    && (t.stale ==> (t.stage.Waiting? && t.stage.due >= since + interval) || (t.stage.Fired? && t.stage.at >= since + interval))
  }

  lemma {:induction false} FirstOrLater(s: State)
    requires Inv(s)
    ensures s.nextAt >= s.since + s.cfg.interval
  {
    DeadlineAtLeast(s.first, s.cfg.interval, s.fires);
    LessThanOne(-|s.fires|, s.cfg.interval);
    assert |s.fires| * s.cfg.interval >= 0;
  }

  lemma {:induction false} KeptStep(t: State, e: Event, since: int, interval: int)
    requires Inv(t) && Kept(t, since, interval) && Enabled(t, e) && !e.Configure?
    ensures Kept(Apply(t, e), since, interval)
  {
    if e.Move? { KeptByMove(t, since, interval); }
  }

  lemma {:induction false} KeptByMove(t: State, since: int, interval: int)
    requires Inv(t) && Kept(t, since, interval) && t.stage.Fired?
    ensures Kept(Apply(t, Move), since, interval)
  {
    FirstOrLater(t);
    assert t.now >= t.stage.at >= since + interval;
  }

  lemma {:induction false} KeptOn(t: State, events: seq<Event>, u: State, since: int, interval: int)
    requires Inv(t) && Kept(t, since, interval) && Unchanged(events) && Runs(t, events, u)
    ensures Kept(u, since, interval)
    decreases |events|
  {
    if events != [] {
      KeptStep(t, events[0], since, interval);
      ApplyKeepsInv(t, events[0]);
      KeptOn(Apply(t, events[0]), events[1..], u, since, interval);
    }
  }

  // Until the configuration is changed again, a fire can come before the new interval is over exactly when
  // the change meets one.
  lemma {:induction false} EarlyFireIff(s: State, cfg: Config)
    requires Inv(s) && InBounds(cfg)
    ensures MeetsFire(s, cfg) <==> exists events, u :: EarlyFire(s, cfg, events, u)
  {
    var t := Apply(s, Configure(cfg));
    ApplyKeepsInv(s, Configure(cfg));
    if MeetsFire(s, cfg) {
      var events, u := MeetFire(s, t, cfg);
      assert EarlyFire(s, cfg, events, u);
    } else {
      forall events, u ensures !EarlyFire(s, cfg, events, u) {
        if Unchanged(events) && Runs(t, events, u) { KeptOn(t, events, u, s.now, cfg.interval); }
      }
    }
  }

  ghost predicate EarlyFire(s: State, cfg: Config, events: seq<Event>, u: State) {
    && Unchanged(events) && Runs(Apply(s, Configure(cfg)), events, u)
    && exists k | 0 <= k < |u.moved| :: u.moved[k] < s.now + cfg.interval
  }

  // A run from a change to the fire it meets.
  lemma {:induction false} MeetFire(s: State, t: State, cfg: Config) returns (events: seq<Event>, u: State)
    requires Inv(s) && InBounds(cfg) && t == Apply(s, Configure(cfg)) && MeetsFire(s, cfg)
    ensures Unchanged(events) && Runs(t, events, u)
    ensures |u.moved| == 1 && u.moved[0] < s.now + cfg.interval
  {
    if s.stage.Fired? {
      events, u := [Move], Apply(t, Move);
    } else {
      var dt := if s.stage.due > s.now then s.stage.due - s.now else 0;
      var late := Apply(t, Pass(dt));
      var fired := Apply(late, Fire);
      u := Apply(fired, Move);
      RunsOn(fired, Move, [], u);
      RunsOn(late, Fire, [Move], u);
      RunsOn(t, Pass(dt), [Fire] + [Move], u);
      events := [Pass(dt)] + ([Fire] + [Move]);
    }
  }

  // A service waiting on its first deadline, switched off the moment its timer goes off: the reachable state
  // in which it calls the miner all the same, with no fire of the new schedule.
  lemma {:induction false} MinesWhenSwitchedOff()
    ensures var on, off := Config(true, DEFAULT_INTERVAL, "node", 1), Config(false, MIN_INTERVAL, "node", 1);
      var events := [Read] + ([Pass(DEFAULT_INTERVAL)] + ([Fire] + ([Configure(off)] + ([Move] + ([Call] + [])))));
      exists u :: Runs(Started(on, 0), events, u)
        && u.stage.Mining? && !u.cfg.enabled && u.mines == 1 && u.moved == [u.since] && u.fires == []
        && u.shifted && u.nextAt == u.since + MIN_INTERVAL + DEFAULT_INTERVAL
  {
    var on, off := Config(true, DEFAULT_INTERVAL, "node", 1), Config(false, MIN_INTERVAL, "node", 1);
    var s3 := FiredAt(on);
    var s4 := Apply(s3, Configure(off));
    var s5 := Apply(s4, Move);
    var u := Apply(s5, Call);
    RunsOn(s5, Call, [], u);
    RunsOn(s4, Move, [Call] + [], u);
    RunsOn(s3, Configure(off), [Move] + ([Call] + []), u);
    RunsToFire(on, [Configure(off)] + ([Move] + ([Call] + [])), u);
  }

  // The same service, switched off when it has moved the deadline and is about to call the miner: it calls
  // it, and no fire at all comes behind the change.
  lemma {:induction false} CallsWhenSwitchedOff()
    ensures var on, off := Config(true, DEFAULT_INTERVAL, "node", 1), Config(false, MIN_INTERVAL, "node", 1);
      var events := [Read] + ([Pass(DEFAULT_INTERVAL)] + ([Fire] + ([Move] + ([Configure(off)] + ([Call] + [])))));
      exists u :: Runs(Started(on, 0), events, u)
        && u.stage.Mining? && !u.cfg.enabled && u.mines == 1 && u.moved == [] && !u.shifted && u.carried
        && u.nextAt == u.since + MIN_INTERVAL
  {
    var on, off := Config(true, DEFAULT_INTERVAL, "node", 1), Config(false, MIN_INTERVAL, "node", 1);
    var s3 := FiredAt(on);
    var s4 := Apply(s3, Move);
    var s5 := Apply(s4, Configure(off));
    var u := Apply(s5, Call);
    RunsOn(s5, Call, [], u);
    RunsOn(s4, Configure(off), [Call] + [], u);
    RunsOn(s3, Move, [Configure(off)] + ([Call] + []), u);
    RunsToFire(on, [Move] + ([Configure(off)] + ([Call] + [])), u);
  }

  // The service past its first timer.
  function FiredAt(on: Config): State {
    Apply(Apply(Apply(Started(on, 0), Read), Pass(DEFAULT_INTERVAL)), Fire)
  }

  lemma {:induction false} RunsToFire(on: Config, events: seq<Event>, u: State)
    requires on.interval == DEFAULT_INTERVAL && Runs(FiredAt(on), events, u)
    ensures Runs(Started(on, 0), [Read] + ([Pass(DEFAULT_INTERVAL)] + ([Fire] + events)), u)
  {
    var s1 := Apply(Started(on, 0), Read);
    var s2 := Apply(s1, Pass(DEFAULT_INTERVAL));
    RunsOn(s2, Fire, events, u);
    RunsOn(s1, Pass(DEFAULT_INTERVAL), [Fire] + events, u);
    RunsOn(Started(on, 0), Read, [Pass(DEFAULT_INTERVAL)] + ([Fire] + events), u);
  }

  // A change that finds the timer gone off but the deadline not yet moved is moved by the old interval.
  lemma {:induction false} ChangeDuringFire(s: State, cfg: Config, dt: nat)
    requires Inv(s) && s.stage.Fired? && InBounds(cfg)
    ensures var t := Apply(Apply(Apply(s, Configure(cfg)), Pass(dt)), Move);
      t.shifted && t.nextAt == NextDeadline(s.now + cfg.interval, s.stage.cfg.interval, s.now + dt)
      && t.nextAt >= s.now + cfg.interval + s.stage.cfg.interval
  {
  }

  // ---- switching off ---------------------------------------------------------------------

  // The loop would go on to call the miner with the configuration it read.
  predicate MeetsMiner(s: State) {
    (s.stage.Waiting? || s.stage.Fired? || s.stage.Committed?) && Mines(s.stage.cfg)
  }

  ghost predicate MinesOn(s: State, off: Config, events: seq<Event>, u: State) {
    Unchanged(events) && Runs(Apply(s, Configure(off)), events, u) && u.mines > 0
  }

  // Mining is off, and nothing under way calls the miner.
  ghost predicate Off(t: State) { InBounds(t.cfg) && !Mines(t.cfg) && t.mines == 0 && !MeetsMiner(t) && CommittedMines(t) }

  ghost predicate CommittedMines(t: State) { t.stage.Committed? ==> Mines(t.stage.cfg) }

  lemma {:induction false} OffStep(t: State, e: Event)
    requires Off(t) && Enabled(t, e) && !e.Configure?
    ensures Off(Apply(t, e))
  {
  }

  lemma {:induction false} OffOn(t: State, events: seq<Event>, u: State)
    requires Off(t) && Unchanged(events) && Runs(t, events, u)
    ensures u.mines == 0
    decreases |events|
  {
    if events != [] {
      OffStep(t, events[0]);
      OffOn(Apply(t, events[0]), events[1..], u);
    }
  }

  // Behind a change that switches mining off the miner can be called exactly when the change finds the loop
  // anywhere from its wait to the call itself, with a configuration that mines; and never more than once.
  lemma {:induction false} SwitchOffMinesIff(s: State, off: Config)
    requires Inv(s) && InBounds(off) && !Mines(off)
    ensures MeetsMiner(s) <==> exists events, u :: MinesOn(s, off, events, u)
    ensures forall events, u | MinesOn(s, off, events, u) :: u.mines == 1
  {
    var t := Apply(s, Configure(off));
    ApplyKeepsInv(s, Configure(off));
    if MeetsMiner(s) {
      var events, u := MeetMiner(s, t, off);
      assert MinesOn(s, off, events, u);
    }
    forall events, u | MinesOn(s, off, events, u) ensures u.mines == 1 && MeetsMiner(s) {
      RunsKeepInv(t, events, u);
      CfgStays(t, events, u);
      if !MeetsMiner(s) { OffOn(t, events, u); }
    }
  }

  lemma {:induction false} CfgStays(t: State, events: seq<Event>, u: State)
    requires Unchanged(events) && Runs(t, events, u)
    ensures u.cfg == t.cfg
    decreases |events|
  {
    if events != [] { CfgStays(Apply(t, events[0]), events[1..], u); }
  }

  lemma {:induction false} MeetMiner(s: State, t: State, off: Config) returns (events: seq<Event>, u: State)
    requires Inv(s) && InBounds(off) && t == Apply(s, Configure(off)) && MeetsMiner(s)
    ensures Unchanged(events) && Runs(t, events, u) && u.mines == 1
  {
    if s.stage.Committed? {
      events, u := [Call], Apply(t, Call);
    } else if s.stage.Fired? {
      var moved := Apply(t, Move);
      u := Apply(moved, Call);
      RunsOn(moved, Call, [], u);
      RunsOn(t, Move, [Call], u);
      events := [Move] + [Call];
    } else {
      var dt := if s.stage.due > s.now then s.stage.due - s.now else 0;
      var late := Apply(t, Pass(dt));
      var fired := Apply(late, Fire);
      var moved := Apply(fired, Move);
      u := Apply(moved, Call);
      RunsOn(moved, Call, [], u);
      RunsOn(fired, Move, [Call], u);
      RunsOn(late, Fire, [Move] + [Call], u);
      RunsOn(t, Pass(dt), [Fire] + ([Move] + [Call]), u);
      events := [Pass(dt)] + ([Fire] + ([Move] + [Call]));
    }
  }

  // ---- the service -----------------------------------------------------------------------

  // How a run of the miner ends.
  function Outcome(hasMiner: bool, blocks: nat): Event { if hasMiner then Mined(blocks) else NoMiner }

  // Each method is one event of the loop or of a request: it takes a service in a state of the transition
  // system to the next.
  class Service {
    var cfg: Config
    var nextAt: int
    var runs: nat
    var blocksMined: nat
    var failed: bool

    ghost predicate Is(s: State)
      reads this
    {
      Inv(s) && cfg == s.cfg && nextAt == s.nextAt && runs == s.runs && blocksMined == s.mined
    }

    constructor (c: Config)
      ensures InBounds(cfg) && cfg.enabled == c.enabled && cfg.node == c.node && (InBounds(c) ==> cfg == c)
      ensures runs == 0 && blocksMined == 0 && !failed
    {
      var clamped := Clamp(c);
      cfg, nextAt, runs, blocksMined, failed := clamped, 0, 0, 0, false;
    }

    // The start of Run.
    method Begin(now: int)
      modifies `nextAt
      ensures nextAt == now + cfg.interval
      ensures InBounds(cfg) && runs == 0 && blocksMined == 0 ==> Is(Started(cfg, now))
    {
      nextAt := now + cfg.interval;
    }

    method Configure(c: Config, now: int, ghost s: State)
      modifies `cfg, `nextAt
      ensures InBounds(cfg) && cfg.enabled == c.enabled && cfg.node == c.node && (InBounds(c) ==> cfg == c)
      ensures nextAt == now + cfg.interval
      ensures old(Is(s)) && s.now == now ==> Is(Apply(s, Event.Configure(cfg)))
    {
      cfg := Clamp(c);
      nextAt := now + cfg.interval;
      if old(Is(s)) { ApplyKeepsInv(s, Event.Configure(cfg)); }
    }

    // Moving the deadline once the timer has gone off, with the interval read before the wait.
    method Advance(interval: int, now: int, ghost s: State)
      modifies `nextAt
      ensures nextAt == NextDeadline(old(nextAt), interval, now)
      ensures old(Is(s)) && s.now == now && s.stage.Fired? && s.stage.cfg.interval == interval ==> Is(Apply(s, Move))
    {
      nextAt := nextAt + interval;
      if nextAt < now { nextAt := now + interval; }
      if old(Is(s)) && s.stage.Fired? { MoveOf(s); }
    }

    // What a run of the miner counts, a success with as many hashes as it was asked for or fewer.
    method MineOnce(hasMiner: bool, ok: bool, hashes: nat, ghost s: State)
      modifies `runs, `blocksMined, `failed
      ensures runs == old(runs) + (if hasMiner then 1 else 0)
      ensures blocksMined == old(blocksMined) + (if hasMiner && ok then hashes else 0)
      ensures failed == if hasMiner then !ok else old(failed)
      ensures old(Is(s)) && Enabled(s, Outcome(hasMiner, if ok then hashes else 0)) ==>
        && Is(Apply(s, Outcome(hasMiner, if ok then hashes else 0)))
        && blocksMined <= 5 * runs && runs <= s.moves
    {
      if old(Is(s)) && Enabled(s, Outcome(hasMiner, if ok then hashes else 0)) {
        ApplyKeepsInv(s, Outcome(hasMiner, if ok then hashes else 0));
      }
      if !hasMiner { return; }
      runs := runs + 1;
      if !ok {
        failed := true;
        return;
      }
      failed := false;
      blocksMined := blocksMined + hashes;
    }
  }
}
