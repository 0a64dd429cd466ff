/**
 * The table that turns a node's evidence into one explanation (internal/diag/rules.go). The texts of
 * the explanation are left out; what it is, how sure it is and what it rests on are kept.
 */
module DiagRules {
  import opened Basics
  import F = Fleet

  datatype Source = Container | Tip | Fsm | Catchup | Peers | Heights | Invalid | Health

  // The order every report lists its sources in.
  const SOURCE_ORDER: seq<Source> := [Container, Tip, Fsm, Catchup, Peers, Heights, Invalid, Health]

  const STALL_MS: int := 120_000
  const RECENT_NS: int := 600_000_000_000
  const SECOND_NS: int := 1_000_000_000

  datatype SourceStatus = SourceStatus(name: Source, ok: bool)
  datatype TipInfo = TipInfo(height: F.Uint32, hash: string)
  datatype Attempt = Attempt(message: string, time: int)
  datatype CatchupStatus = CatchupStatus(active: bool, durationMs: int, blocksValidated: int, previous: Option<Attempt>)

  // Evidence that was not obtained is None, or an empty list.
  datatype Diagnostics = Diagnostics(
    containerState: string, sources: seq<SourceStatus>, tip: Option<TipInfo>, fsm: Option<string>,
    catchup: Option<CatchupStatus>, connected: seq<bool>, rejected: seq<F.Uint32>, health: Option<seq<string>>)

  datatype Input = Input(node: string, diag: Diagnostics, fleet: F.Context, prev: Option<Diagnostics>, now: int)

  datatype Class =
    | Unreachable | ContainerDown | Partitioned | FsmIdle | CatchupStalled | CatchingUp | CatchupFailed
    | NoPeers | MinorityTip | Behind | Unhealthy | InSync | Unknown

  datatype Severity = Good | Info | Warn | Bad | Unclear

  datatype Verdict = Verdict(class_: Class, severity: Severity, evidence: seq<Source>, missing: seq<Source>, high: bool)

  // ---- reading the evidence --------------------------------------------------------------

  // Whether a source succeeded; one that is not listed did not.
  function Ok(sources: seq<SourceStatus>, name: Source): bool {
    if sources == [] then false
    else if sources[0].name == name then sources[0].ok
    else Ok(sources[1..], name)
  }

  // How many blocks behind the fleet the node's own tip is.
  function Lag(input: Input): nat {
    if input.diag.tip.Some? && input.fleet.maxHeight > input.diag.tip.value.height
    then input.fleet.maxHeight - input.diag.tip.value.height
    else 0
  }

  // The fleet's view of the node; an unknown node is unreachable and has no plane cut.
  predicate Reachable(input: Input) { input.node in input.fleet.nodes && input.fleet.nodes[input.node].reachable }

  predicate Cut(input: Input) { input.node in input.fleet.nodes && input.fleet.nodes[input.node].partitions != [] }

  predicate Down(d: Diagnostics) { d.containerState != "" && d.containerState != "running" }

  predicate Catching(d: Diagnostics) {
    d.fsm == Some("CATCHINGBLOCKS") || (d.catchup.Some? && d.catchup.value.active)
  }

  predicate Stalled(d: Diagnostics, prev: Option<Diagnostics>) {
    && prev.Some? && prev.value.catchup.Some? && d.catchup.Some?
    && prev.value.catchup.value.blocksValidated == d.catchup.value.blocksValidated
  }

  predicate Recent(seconds: int, now: int) { seconds > 0 && now - seconds * SECOND_NS <= RECENT_NS }

  predicate FailedLately(d: Diagnostics, now: int) {
    && d.catchup.Some? && d.catchup.value.previous.Some?
    && d.catchup.value.previous.value.message != "" && Recent(d.catchup.value.previous.value.time, now)
  }

  // Heights are 32 bits wide.
  function Above(h: F.Uint32): F.Uint32 { (h + 1) % F.TWO_32 }

  // A rejection that can explain the node's present tip.
  predicate Relevant(input: Input, height: F.Uint32) {
    && input.diag.tip.Some? && height > input.diag.tip.value.height && height <= Above(input.fleet.maxHeight)
  }

  predicate Forked(input: Input) {
    && input.diag.tip.Some? && input.fleet.majorityTip != "" && input.diag.tip.value.hash != input.fleet.majorityTip
    && Above(input.diag.tip.value.height) >= input.fleet.maxHeight
    && exists h | h in input.diag.rejected :: Relevant(input, h)
  }

  predicate NothingFailed(sources: seq<SourceStatus>) { forall i | 0 <= i < |sources| :: sources[i].ok }

  predicate Settled(input: Input) {
    var d := input.diag;
    && Ok(d.sources, Tip) && Ok(d.sources, Fsm) && d.tip.Some? && d.fsm == Some("RUNNING")
    && (input.fleet.majorityTip == "" || d.tip.value.hash == input.fleet.majorityTip)
    && NothingFailed(d.sources)
  }

  // ---- the table -------------------------------------------------------------------------

  // What each explanation takes by itself.
  predicate Applies(input: Input, c: Class) {
    var d := input.diag;
    match c
    case Unreachable => !Ok(d.sources, Tip) && !Reachable(input)
    case ContainerDown => Down(d)
    case Partitioned => Cut(input)
    case FsmIdle => d.fsm == Some("IDLE")
    case CatchupStalled =>
      Catching(d) && d.catchup.Some? && d.catchup.value.durationMs > STALL_MS && Stalled(d, input.prev)
    case CatchingUp => Catching(d)
    case CatchupFailed => FailedLately(d, input.now)
    case NoPeers => Ok(d.sources, Peers) && true !in d.connected
    case MinorityTip => Forked(input)
    case Behind => d.tip.Some? && Lag(input) > 1
    case Unhealthy => d.health.Some? && d.health.value != []
    case InSync => Settled(input)
    case Unknown => true
  }

  // Causes outrank their symptoms.
  function Rank(c: Class): nat {
    match c
    case Unreachable => 0
    case ContainerDown => 1
    case Partitioned => 2
    case FsmIdle => 3
    case CatchupStalled => 4
    case CatchingUp => 5
    case CatchupFailed => 6
    case NoPeers => 7
    case MinorityTip => 8
    case Behind => 9
    case Unhealthy => 10
    case InSync => 11
    case Unknown => 12
  }

  function SeverityOf(c: Class): Severity {
    match c
    case InSync => Good
    case CatchingUp => Info
    case Partitioned | Behind | Unhealthy => Warn
    case Unknown => Unclear
    case _ => Bad
  }

  // The sources an explanation says it rests on, and those it insists on.
  function EvidenceOf(c: Class): seq<Source> {
    match c
    case Unreachable | Behind => [Tip]
    case ContainerDown => [Container]
    case FsmIdle => [Fsm]
    case CatchupStalled | CatchupFailed => [Catchup]
    case CatchingUp => [Fsm, Catchup]
    case NoPeers => [Peers]
    case MinorityTip => [Tip, Invalid]
    case Unhealthy => [Health]
    case InSync => [Tip, Fsm]
    case Partitioned | Unknown => []
  }

  function WantOf(c: Class): seq<Source> { if c == CatchingUp then [Fsm] else EvidenceOf(c) }

  function NotOk(want: seq<Source>, sources: seq<SourceStatus>): seq<Source> {
    if want == [] then []
    else
      var n := |want| - 1;
      NotOk(want[..n], sources) + if Ok(sources, want[n]) then [] else [want[n]]
  }

  // The failed sources not already in a list, each once.
  function WithFailed(missing: seq<Source>, sources: seq<SourceStatus>): seq<Source> {
    if sources == [] then missing
    else
      var n := |sources| - 1;
      var before := WithFailed(missing, sources[..n]);
      if !sources[n].ok && sources[n].name !in before then before + [sources[n].name] else before
  }

  function MissingOf(c: Class, want: seq<Source>, sources: seq<SourceStatus>): seq<Source> {
    var missing := NotOk(want, sources);
    if c == Unknown then WithFailed(missing, sources) else missing
  }

  // The verdict on a node: the highest-ranking explanation that applies, with what goes with it.
  ghost predicate Explains(input: Input, v: Verdict) {
    && Applies(input, v.class_) && (forall c | Rank(c) < Rank(v.class_) :: !Applies(input, c))
    && v.severity == SeverityOf(v.class_) && v.evidence == EvidenceOf(v.class_)
    && v.missing == MissingOf(v.class_, WantOf(v.class_), input.diag.sources)
    && v.high == (v.missing == [])
  }

  // ---- carrying it out -------------------------------------------------------------------

  method Succeeded(sources: seq<SourceStatus>, name: Source) returns (r: bool)
    ensures r == Ok(sources, name)
  {
    for i := 0 to |sources|
      invariant Ok(sources, name) == Ok(sources[i..], name)
    {
      assert sources[i..][1..] == sources[i + 1..];
      if sources[i].name == name { return sources[i].ok; }
    }
    r := false;
  }

  method Failed(sources: seq<SourceStatus>) returns (out: seq<Source>)
    ensures out == [] <==> NothingFailed(sources)
    ensures forall s :: s in out <==> exists i | 0 <= i < |sources| :: !sources[i].ok && sources[i].name == s
  {
    out := [];
    for i := 0 to |sources|
      invariant out == [] <==> NothingFailed(sources[..i])
      invariant forall s :: s in out <==> exists k | 0 <= k < i :: !sources[k].ok && sources[k].name == s
    {
      if !sources[i].ok { out := out + [sources[i].name]; }
    }
  }

  method CountConnected(connected: seq<bool>) returns (n: nat)
    ensures n == 0 <==> true !in connected
    ensures n <= |connected|
  {
    n := 0;
    for i := 0 to |connected|
      invariant n <= i && (n == 0 <==> true !in connected[..i])
    {
      if connected[i] { n := n + 1; }
    }
  }

  // The rejections that can explain the present tip; their order only serves the text.
  method RelevantRejections(input: Input) returns (out: seq<F.Uint32>)
    ensures forall h :: h in out <==> h in input.diag.rejected && Relevant(input, h)
  {
    out := [];
    var rejected := input.diag.rejected;
    for i := 0 to |rejected|
      invariant forall h :: h in out <==> h in rejected[..i] && Relevant(input, h)
    {
      if Relevant(input, rejected[i]) { out := out + [rejected[i]]; }
    }
  }

  method Finish(c: Class, severity: Severity, evidence: seq<Source>, want: seq<Source>, sources: seq<SourceStatus>)
    returns (v: Verdict)
    ensures v.class_ == c && v.severity == severity
    ensures v.evidence == if evidence == [] then want else evidence
    ensures v.missing == MissingOf(c, want, sources) && v.high == (v.missing == [])
  {
    var rests := if |evidence| == 0 && |want| > 0 then want else evidence;
    var missing: seq<Source> := [];
    for i := 0 to |want|
      invariant missing == NotOk(want[..i], sources)
    {
      assert want[..i + 1][..i] == want[..i];
      var ok := Succeeded(sources, want[i]);
      if !ok { missing := missing + [want[i]]; }
    }
    assert want[..|want|] == want;
    ghost var wanted := missing;
    for i := 0 to |sources|
      invariant missing == if c == Unknown then WithFailed(wanted, sources[..i]) else wanted
    {
      assert sources[..i + 1][..i] == sources[..i];
      if !sources[i].ok && sources[i].name !in missing && c == Unknown {
        missing := missing + [sources[i].name];
      }
    }
    assert sources[..|sources|] == sources;
    v := Verdict(c, severity, rests, missing, |missing| == 0);
  }

  method Evaluate(input: Input) returns (v: Verdict)
    ensures Explains(input, v)
  {
    var d, f := input.diag, input.fleet;
    var behind: nat := 0;
    if d.tip.Some? && f.maxHeight > d.tip.value.height { behind := f.maxHeight - d.tip.value.height; }
    var known := input.node in f.nodes;
    var tipOk := Succeeded(d.sources, Tip);
    if !tipOk && !(known && f.nodes[input.node].reachable) {
      v := Finish(Unreachable, Bad, [Tip], [Tip], d.sources);
      return;
    }
    if d.containerState != "" && d.containerState != "running" {
      v := Finish(ContainerDown, Bad, [Container], [Container], d.sources);
      return;
    }
    if known && |f.nodes[input.node].partitions| > 0 {
      v := Finish(Partitioned, Warn, [], [], d.sources);
      return;
    }
    v := EvaluateState(input, behind);
  }

  // The rules for a node that answers, is up and has no plane cut.
  method EvaluateState(input: Input, behind: nat) returns (v: Verdict)
    requires behind == Lag(input)
    requires forall c | Rank(c) < Rank(FsmIdle) :: !Applies(input, c)
    ensures Explains(input, v)
  {
    var d := input.diag;
    if d.fsm.Some? && d.fsm.value == "IDLE" {
      v := Finish(FsmIdle, Bad, [Fsm], [Fsm], d.sources);
      return;
    }
    var catching := (d.fsm.Some? && d.fsm.value == "CATCHINGBLOCKS") || (d.catchup.Some? && d.catchup.value.active);
    if catching && d.catchup.Some? && d.catchup.value.durationMs > STALL_MS && Stalled(d, input.prev) {
      v := Finish(CatchupStalled, Bad, [Catchup], [Catchup], d.sources);
      return;
    }
    if catching {
      v := Finish(CatchingUp, Info, [Fsm, Catchup], [Fsm], d.sources);
      return;
    }
    if d.catchup.Some? && d.catchup.value.previous.Some? {
      var attempt := d.catchup.value.previous.value;
      if attempt.message != "" && Recent(attempt.time, input.now) {
        v := Finish(CatchupFailed, Bad, [Catchup], [Catchup], d.sources);
        return;
      }
    }
    v := EvaluateTip(input, behind);
  }

  // The rules for one that is not catching up either,
  method EvaluateTip(input: Input, behind: nat) returns (v: Verdict)
    requires behind == Lag(input)
    requires forall c | Rank(c) < Rank(NoPeers) :: !Applies(input, c)
    ensures Explains(input, v)
  {
    var d, f := input.diag, input.fleet;
    var peersOk := Succeeded(d.sources, Peers);
    var peers := CountConnected(d.connected);
    if peersOk && peers == 0 {
      v := Finish(NoPeers, Bad, [Peers], [Peers], d.sources);
      return;
    }
    if d.tip.Some? && f.majorityTip != "" && d.tip.value.hash != f.majorityTip && Above(d.tip.value.height) >= f.maxHeight
      && |d.rejected| > 0 {
      var rel := RelevantRejections(input);
      if |rel| > 0 {
        assert rel[0] in rel;
        v := Finish(MinorityTip, Bad, [Tip, Invalid], [Tip, Invalid], d.sources);
        return;
      }
    }
    v := EvaluateRest(input, behind);
  }

  // and for one that also has peers and is on no fork.
  method EvaluateRest(input: Input, behind: nat) returns (v: Verdict)
    requires behind == Lag(input)
    requires forall c | Rank(c) < Rank(Behind) :: !Applies(input, c)
    ensures Explains(input, v)
  {
    var d, f := input.diag, input.fleet;
    if d.tip.Some? && behind > 1 {
      v := Finish(Behind, Warn, [Tip], [Tip], d.sources);
      return;
    }
    if d.health.Some? && |d.health.value| > 0 {
      v := Finish(Unhealthy, Warn, [Health], [Health], d.sources);
      return;
    }
    var tipOk := Succeeded(d.sources, Tip);
    var fsmOk := Succeeded(d.sources, Fsm);
    var failed := Failed(d.sources);
    if tipOk && fsmOk && d.tip.Some? && d.fsm.Some? && d.fsm.value == "RUNNING"
      && (f.majorityTip == "" || d.tip.value.hash == f.majorityTip) && |failed| == 0 {
      v := Finish(InSync, Good, [Tip, Fsm], [Tip, Fsm], d.sources);
      return;
    }
    v := Finish(Unknown, Unclear, [], [], d.sources);
  }

  // ---- what a verdict may claim ----------------------------------------------------------

  // There is no second verdict.
  lemma {:induction false} OneVerdict(input: Input, v: Verdict, w: Verdict)
    requires Explains(input, v) && Explains(input, w)
    ensures v == w
  {
    assert Rank(v.class_) == Rank(w.class_);
  }

  // What each explanation says of the node, in the terms of its report, and that no cause that outranks it is there.
  lemma {:induction false} ExplanationTells(input: Input, v: Verdict)
    requires Explains(input, v)
    ensures var d, known := input.diag, input.node in input.fleet.nodes;
      var answers := Ok(d.sources, Tip) || (known && input.fleet.nodes[input.node].reachable);
      var stopped := d.containerState != "" && d.containerState != "running";
      var cut := known && input.fleet.nodes[input.node].partitions != [];
      var idle := d.fsm == Some("IDLE");
      && (v.class_ == Unreachable <==> !answers)
      && (v.class_ == ContainerDown <==> answers && stopped)
      && (v.class_ == Partitioned <==> answers && !stopped && cut)
      && (v.class_ == FsmIdle <==> answers && !stopped && !cut && idle)
  {
    var c := v.class_;
    assert Applies(input, c);
    OutrankedBy(input, v, Unreachable);
    OutrankedBy(input, v, ContainerDown);
    OutrankedBy(input, v, Partitioned);
    OutrankedBy(input, v, FsmIdle);
  }

  lemma {:induction false} OutrankedBy(input: Input, v: Verdict, c: Class)
    requires Explains(input, v)
    ensures Applies(input, c) ==> Rank(v.class_) <= Rank(c)
  {
  }

  // A node that is up and whole and not idle catches up by its state or its own word; it has stalled when it has been
  // at it for more than two minutes and validated no block since the last look.
  lemma {:induction false} CatchupTells(input: Input, v: Verdict)
    requires Explains(input, v) && v.class_ !in {Unreachable, ContainerDown, Partitioned, FsmIdle}
    ensures var d := input.diag;
      var catching := d.fsm == Some("CATCHINGBLOCKS") || (d.catchup.Some? && d.catchup.value.active);
      var stalled := d.catchup.Some? && d.catchup.value.durationMs > 120_000
        && input.prev.Some? && input.prev.value.catchup.Some?
        && input.prev.value.catchup.value.blocksValidated == d.catchup.value.blocksValidated;
      var failed := d.catchup.Some? && d.catchup.value.previous.Some? && d.catchup.value.previous.value.message != ""
        && d.catchup.value.previous.value.time > 0
        && input.now - d.catchup.value.previous.value.time * 1_000_000_000 <= 600_000_000_000;
      && (v.class_ == CatchupStalled <==> catching && stalled)
      && (v.class_ == CatchingUp <==> catching && !stalled)
      && (v.class_ == CatchupFailed <==> !catching && failed)
  {
    assert Applies(input, v.class_);
    OutrankedBy(input, v, CatchupStalled);
    OutrankedBy(input, v, CatchingUp);
    OutrankedBy(input, v, CatchupFailed);
  }

  // And one that is not catching up: it has no peer; or holds another tip than most at about their height, and has
  // lately rejected a block above its own; or lacks more than one block; or reports a failing check.
  lemma {:induction false} TipTells(input: Input, v: Verdict)
    requires Explains(input, v)
    requires v.class_ in {NoPeers, MinorityTip, Behind, Unhealthy, InSync, Unknown}
    ensures var d, f := input.diag, input.fleet;
      var lonely := Ok(d.sources, Peers) && forall i | 0 <= i < |d.connected| :: !d.connected[i];
      var forked := d.tip.Some? && f.majorityTip != "" && d.tip.value.hash != f.majorityTip
        && (d.tip.value.height + 1) % 0x1_0000_0000 >= f.maxHeight
        && exists h | h in d.rejected :: d.tip.value.height < h <= (f.maxHeight + 1) % 0x1_0000_0000;
      var behind := d.tip.Some? && d.tip.value.height + 1 < f.maxHeight;
      var unwell := d.health.Some? && d.health.value != [];
      && (v.class_ == NoPeers <==> lonely)
      && (v.class_ == MinorityTip <==> !lonely && forked)
      && (v.class_ == Behind <==> !lonely && !forked && behind)
      && (v.class_ == Unhealthy <==> !lonely && !forked && !behind && unwell)
  {
    var d, f := input.diag, input.fleet;
    assert Applies(input, v.class_);
    OutrankedBy(input, v, NoPeers);
    OutrankedBy(input, v, MinorityTip);
    OutrankedBy(input, v, Behind);
    OutrankedBy(input, v, Unhealthy);
    ForkedIs(input);
    assert true !in d.connected <==> forall i | 0 <= i < |d.connected| :: !d.connected[i];
  }

  lemma {:induction false} ForkedIs(input: Input)
    ensures var d, f := input.diag, input.fleet;
      Forked(input) <==>
        && d.tip.Some? && f.majorityTip != "" && d.tip.value.hash != f.majorityTip
        && (d.tip.value.height + 1) % 0x1_0000_0000 >= f.maxHeight
        && exists h | h in d.rejected :: d.tip.value.height < h <= (f.maxHeight + 1) % 0x1_0000_0000
  {
    var d, f := input.diag, input.fleet;
    if d.tip.Some? {
      assert forall h: F.Uint32 :: Relevant(input, h) <==> d.tip.value.height < h <= (f.maxHeight + 1) % 0x1_0000_0000;
    }
  }

  // Only a node in sync is good news and only one catching up is none at all; a plane cut on purpose, a lag and a
  // failing check are warnings, and every other known cause is bad.
  lemma {:induction false} SeverityTells(input: Input, v: Verdict)
    requires Explains(input, v)
    ensures v.severity == Good <==> v.class_ == InSync
    ensures v.severity == Info <==> v.class_ == CatchingUp
    ensures v.severity == Warn <==> v.class_ in {Partitioned, Behind, Unhealthy}
    ensures v.severity == Unclear <==> v.class_ == Unknown
  {
  }

  // An explanation names the evidence it is read from.
  lemma {:induction false} EvidenceTells(input: Input, v: Verdict)
    requires Explains(input, v)
    ensures Tip in v.evidence <==> v.class_ in {Unreachable, Behind, MinorityTip, InSync}
    ensures Fsm in v.evidence <==> v.class_ in {FsmIdle, CatchingUp, InSync}
    ensures Catchup in v.evidence <==> v.class_ in {CatchupStalled, CatchingUp, CatchupFailed}
    ensures Container in v.evidence <==> v.class_ == ContainerDown
    ensures Peers in v.evidence <==> v.class_ == NoPeers
    ensures Invalid in v.evidence <==> v.class_ == MinorityTip
    ensures Health in v.evidence <==> v.class_ == Unhealthy
    ensures Heights !in v.evidence
  {
  }

  // Every source is reported, once, in the fixed order.
  ghost predicate Complete(sources: seq<SourceStatus>) {
    |sources| == |SOURCE_ORDER| && forall i | 0 <= i < |sources| :: sources[i].name == SOURCE_ORDER[i]
  }

  lemma {:induction false} OkIs(sources: seq<SourceStatus>, i: nat)
    requires i < |sources| && forall j | 0 <= j < i :: sources[j].name != sources[i].name
    ensures Ok(sources, sources[i].name) == sources[i].ok
  {
    if i > 0 { OkIs(sources[1..], i - 1); }
  }

  function Position(s: Source): (i: nat)
    ensures i < |SOURCE_ORDER| && SOURCE_ORDER[i] == s
  {
    match s
    case Container => 0
    case Tip => 1
    case Fsm => 2
    case Catchup => 3
    case Peers => 4
    case Heights => 5
    case Invalid => 6
    case Health => 7
  }

  lemma {:induction false} CompleteOk(sources: seq<SourceStatus>, s: Source)
    requires Complete(sources)
    ensures Ok(sources, s) == sources[Position(s)].ok
  {
    OkIs(sources, Position(s));
  }

  // Nothing failed and nothing at all speaks against the node.
  ghost predicate Clear(input: Input) {
    var d := input.diag;
    && NothingFailed(d.sources)
    && !Down(d) && !Cut(input) && !Catching(d) && !FailedLately(d, input.now)
    && true in d.connected
    && d.tip.Some? && d.fsm == Some("RUNNING")
    && (input.fleet.majorityTip == "" || d.tip.value.hash == input.fleet.majorityTip)
    && Lag(input) <= 1
    && (d.health.None? || d.health.value == [])
  }

  // A node is called in sync exactly when every source succeeded, it holds the majority tip (if there is
  // one) within a block of the fleet, runs, has a peer and no plane cut, and nothing else is the matter.
  lemma {:induction false} InSyncMeansClear(input: Input, v: Verdict)
    requires Complete(input.diag.sources) && Explains(input, v)
    ensures v.class_ == InSync <==> Clear(input)
  {
    var d := input.diag;
    CompleteOk(d.sources, Tip);
    CompleteOk(d.sources, Fsm);
    CompleteOk(d.sources, Peers);
    if v.class_ == InSync {
      assert Settled(input);
      assert !Applies(input, ContainerDown) && !Applies(input, Partitioned) && !Applies(input, CatchingUp);
      assert !Applies(input, CatchupFailed) && !Applies(input, NoPeers) && !Applies(input, Behind) && !Applies(input, Unhealthy);
    }
    if Clear(input) {
      assert Settled(input) && Applies(input, InSync);
    }
  }

  lemma {:induction false} NotOkAre(want: seq<Source>, sources: seq<SourceStatus>)
    ensures forall s :: s in NotOk(want, sources) <==> s in want && !Ok(sources, s)
  {
    if want != [] {
      var n := |want| - 1;
      NotOkAre(want[..n], sources);
      assert forall s :: s in want <==> s in want[..n] || s == want[n];
    }
  }

  ghost predicate FailedAs(sources: seq<SourceStatus>, s: Source) {
    exists i | 0 <= i < |sources| :: !sources[i].ok && sources[i].name == s
  }

  lemma {:induction false} WithFailedAre(missing: seq<Source>, sources: seq<SourceStatus>, s: Source)
    ensures s in WithFailed(missing, sources) <==> s in missing || FailedAs(sources, s)
  {
    if sources != [] {
      var n := |sources| - 1;
      WithFailedAre(missing, sources[..n], s);
      if FailedAs(sources[..n], s) {
        var i :| 0 <= i < n && !sources[..n][i].ok && sources[..n][i].name == s;
        assert !sources[i].ok && sources[i].name == s;
      }
      if FailedAs(sources, s) && !(!sources[n].ok && sources[n].name == s) {
        var i :| 0 <= i < n && !sources[i].ok && sources[i].name == s;
        assert !sources[..n][i].ok && sources[..n][i].name == s;
      }
    }
  }

  lemma {:induction false} CompleteFailed(sources: seq<SourceStatus>, s: Source)
    requires Complete(sources)
    ensures FailedAs(sources, s) <==> !Ok(sources, s)
  {
    CompleteOk(sources, s);
    if FailedAs(sources, s) {
      var i :| 0 <= i < |sources| && !sources[i].ok && sources[i].name == s;
      assert i == Position(s);
    }
  }

  // Only sources that did not succeed are called missing, and a verdict of unknown names them all; a verdict
  // is unsure exactly when something is missing.
  lemma {:induction false} MissingIsHonest(input: Input, v: Verdict, s: Source)
    requires Complete(input.diag.sources) && Explains(input, v)
    ensures s in v.missing ==> !Ok(input.diag.sources, s)
    ensures v.class_ == Unknown ==> (s in v.missing <==> !Ok(input.diag.sources, s))
    ensures v.high <==> v.missing == []
  {
    NotOkAre(WantOf(v.class_), input.diag.sources);
    WithFailedAre(NotOk(WantOf(v.class_), input.diag.sources), input.diag.sources, s);
    CompleteFailed(input.diag.sources, s);
  }

  // The node answers, is up, whole and not idle, and is catching up without a stall.
  predicate CatchesUp(input: Input) {
    var d := input.diag;
    && (Ok(d.sources, Tip) || Reachable(input)) && !Down(d) && !Cut(input) && d.fsm != Some("IDLE")
    && Catching(d) && !(d.catchup.Some? && d.catchup.value.durationMs > STALL_MS && Stalled(d, input.prev))
  }

  lemma {:induction false} CatchingUpIs(input: Input, v: Verdict)
    requires Explains(input, v)
    ensures v.class_ == CatchingUp <==> CatchesUp(input)
  {
    if v.class_ == CatchingUp {
      assert !Applies(input, Unreachable) && !Applies(input, ContainerDown) && !Applies(input, Partitioned);
      assert !Applies(input, FsmIdle) && !Applies(input, CatchupStalled);
    }
    if CatchesUp(input) {
      assert Applies(input, CatchingUp);
    }
  }

  // A confident verdict names a source that did not succeed exactly when the node catches up, its state was
  // read and its catchup status was not.
  lemma {:induction false} ConfidentEvidence(input: Input, v: Verdict)
    requires Explains(input, v)
    ensures v.high && (exists s | s in v.evidence :: !Ok(input.diag.sources, s))
      <==> CatchesUp(input) && Ok(input.diag.sources, Fsm) && !Ok(input.diag.sources, Catchup)
  {
    var c, sources := v.class_, input.diag.sources;
    CatchingUpIs(input, v);
    NotOkAre(WantOf(c), sources);
    if c == CatchingUp {
      assert NotOk([Fsm], sources) == if Ok(sources, Fsm) then [] else [Fsm] by {
        assert [Fsm][..0] == [] && NotOk([], sources) == [];
      }
      assert Catchup in v.evidence && Fsm in v.evidence;
    } else if v.high {
      forall s | s in v.evidence ensures Ok(sources, s) {
        assert c != Unknown;
        assert s !in NotOk(WantOf(c), sources);
      }
    }
  }

  // A node whose state says it catches up while its catchup status could not be read.
  lemma {:induction false} CatchupUnread()
    ensures var sources := [SourceStatus(Tip, true), SourceStatus(Fsm, true), SourceStatus(Catchup, false)];
      var d := Diagnostics("running", sources, None, Some("CATCHINGBLOCKS"), None, [], [], None);
      var input := Input("node", d, F.Context(0, "", 0, 0, map[]), None, 0);
      && Explains(input, Verdict(CatchingUp, Info, [Fsm, Catchup], [], true)) && !Ok(sources, Catchup)
  {
    var sources := [SourceStatus(Tip, true), SourceStatus(Fsm, true), SourceStatus(Catchup, false)];
    assert Ok(sources, Tip);
    assert sources[1..][0].name == Fsm && Ok(sources[1..], Fsm) && Ok(sources, Fsm);
    assert sources[1..][1..][0] == sources[2] && !Ok(sources[1..][1..], Catchup);
    assert [Fsm][..0] == [] && NotOk([], sources) == [];
    assert NotOk([Fsm], sources) == [];
  }
}
