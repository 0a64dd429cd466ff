/**
 * What a scenario run remembers of the partitions it switched (internal/scenario/executor.go,
 * trackPartition) and what cleaning up after it leaves cut (internal/scenario/engine.go, cleanup).
 */
module Partitions {

  type Node = string
  type Plane = string
  type Pair = (Node, Plane)

  // The run's record: node to planes it cut and has not healed.
  type Open = map<Node, seq<Plane>>

  // A partition call that took effect.
  datatype Switch = Switch(node: Node, plane: Plane, on: bool) {
    function Pair(): Pair { (node, plane) }
  }

  function Others(planes: seq<Plane>, plane: Plane): seq<Plane> {
    if planes == [] then []
    else
      var n := |planes| - 1;
      Others(planes[..n], plane) + if planes[n] != plane then [planes[n]] else []
  }

  function Tracked(open: Open, s: Switch): Open {
    var planes := if s.node in open then open[s.node] else [];
    var kept := Others(planes, s.plane) + if s.on then [s.plane] else [];
    if kept == [] then open - {s.node} else open[s.node := kept]
  }

  function TrackedAll(open: Open, switches: seq<Switch>): Open {
    if switches == [] then open
    else Tracked(TrackedAll(open, switches[..|switches| - 1]), switches[|switches| - 1])
  }

  predicate IsOpen(open: Open, x: Pair) { x.0 in open && x.1 in open[x.0] }

  ghost predicate Distinct(planes: seq<Plane>) {
    forall i, j | 0 <= i < j < |planes| :: planes[i] != planes[j]
  }

  // No plane is listed twice, and no node without one.
  ghost predicate Tidy(open: Open) {
    forall n | n in open :: open[n] != [] && Distinct(open[n])
  }

  // The last switch of x, if there was any, was on.
  ghost predicate LastOn(switches: seq<Switch>, x: Pair) {
    exists i :: OnAndStays(switches, i, x)
  }

  ghost predicate OnAndStays(switches: seq<Switch>, i: int, x: Pair) {
    && 0 <= i < |switches| && switches[i].Pair() == x && switches[i].on
    && forall j | i < j < |switches| :: switches[j].Pair() != x
  }

  lemma {:induction false} OthersAre(planes: seq<Plane>, plane: Plane)
    ensures forall p :: p in Others(planes, plane) <==> p in planes && p != plane
    ensures |Others(planes, plane)| <= |planes|
  {
    if planes != [] {
      var n := |planes| - 1;
      OthersAre(planes[..n], plane);
      assert planes == planes[..n] + [planes[n]];
    }
  }

  lemma {:induction false} OthersDistinct(planes: seq<Plane>, plane: Plane)
    requires Distinct(planes)
    ensures Distinct(Others(planes, plane))
  {
    if planes != [] {
      var n := |planes| - 1;
      OthersDistinct(planes[..n], plane);
      OthersAre(planes[..n], plane);
      assert planes[n] !in planes[..n];
      assert planes[n] !in Others(planes[..n], plane);
    }
  }

  lemma {:induction false} TrackedTidy(open: Open, s: Switch)
    requires Tidy(open)
    ensures Tidy(Tracked(open, s))
  {
    var planes := if s.node in open then open[s.node] else [];
    OthersDistinct(planes, s.plane);
    OthersAre(planes, s.plane);
    assert s.plane !in Others(planes, s.plane);
    assert Distinct(Others(planes, s.plane) + if s.on then [s.plane] else []);
  }

  lemma {:induction false} TrackedIs(open: Open, s: Switch, x: Pair)
    ensures IsOpen(Tracked(open, s), x) <==> if x == s.Pair() then s.on else IsOpen(open, x)
  {
    var planes := if s.node in open then open[s.node] else [];
    OthersAre(planes, s.plane);
  }

  lemma {:induction false} LastOnStep(before: seq<Switch>, s: Switch, x: Pair)
    ensures LastOn(before + [s], x) <==> if x == s.Pair() then s.on else LastOn(before, x)
  {
    var all, n := before + [s], |before|;
    if x == s.Pair() {
      assert all[n].Pair() == x && all[n].on == s.on;
      if s.on {
        assert OnAndStays(all, n, x);
      }
    } else {
      if LastOn(all, x) {
        var i :| OnAndStays(all, i, x);
        assert OnAndStays(before, i, x) by {
          assert forall j | 0 <= j < n :: all[j] == before[j];
        }
      }
      if LastOn(before, x) {
        var i :| OnAndStays(before, i, x);
        assert OnAndStays(all, i, x);
      }
    }
  }

  // The record is always tidy and holds exactly the pairs whose last switch was on.
  lemma {:induction false} RecordIsLastOn(switches: seq<Switch>, x: Pair)
    ensures Tidy(TrackedAll(map[], switches))
    ensures IsOpen(TrackedAll(map[], switches), x) <==> LastOn(switches, x)
  {
    if switches != [] {
      var n := |switches| - 1;
      RecordIsLastOn(switches[..n], x);
      TrackedTidy(TrackedAll(map[], switches[..n]), switches[n]);
      TrackedIs(TrackedAll(map[], switches[..n]), switches[n], x);
      LastOnStep(switches[..n], switches[n], x);
      assert switches == switches[..n] + [switches[n]];
    }
  }

  // ---- what is really cut ----------------------------------------------------------------

  function CutAfter(cut: set<Pair>, switches: seq<Switch>): set<Pair> {
    if switches == [] then cut
    else
      var n := |switches| - 1;
      var before := CutAfter(cut, switches[..n]);
      if switches[n].on then before + {switches[n].Pair()} else before - {switches[n].Pair()}
  }

  ghost predicate Touches(switches: seq<Switch>, x: Pair) { exists i | 0 <= i < |switches| :: switches[i].Pair() == x }

  lemma {:induction false} TouchesMore(before: seq<Switch>, s: Switch, x: Pair)
    ensures Touches(before + [s], x) <==> Touches(before, x) || s.Pair() == x
  {
    var all := before + [s];
    assert all[|before|] == s;
    if Touches(before, x) {
      var i :| 0 <= i < |before| && before[i].Pair() == x;
      assert all[i].Pair() == x;
    }
  }

  // Cut is what was last switched on, and what was cut before and not switched since.
  lemma {:induction false} CutIsLastOn(cut: set<Pair>, switches: seq<Switch>, x: Pair)
    ensures x in CutAfter(cut, switches) <==> LastOn(switches, x) || (x in cut && !Touches(switches, x))
  {
    if switches != [] {
      var n := |switches| - 1;
      assert switches == switches[..n] + [switches[n]];
      CutIsLastOn(cut, switches[..n], x);
      LastOnStep(switches[..n], switches[n], x);
      TouchesMore(switches[..n], switches[n], x);
    }
  }

  // Whatever is cut during a run was cut before it or is in its record.
  lemma {:induction false} CutIsRecorded(cut: set<Pair>, switches: seq<Switch>, x: Pair)
    requires x in CutAfter(cut, switches)
    ensures x in cut || IsOpen(TrackedAll(map[], switches), x)
  {
    if switches != [] {
      var n := |switches| - 1;
      TrackedIs(TrackedAll(map[], switches[..n]), switches[n], x);
      if x in CutAfter(cut, switches[..n]) {
        CutIsRecorded(cut, switches[..n], x);
      }
    }
  }
}
