/**
 * The fleet as one node is judged against it (internal/diag/probe.go, buildFleetContext): the highest
 * height and the tip most reachable nodes hold at it.
 */
module Fleet {
  import opened Lexical

  const TWO_32: nat := 0x1_0000_0000

  type Uint32 = n: nat | n < TWO_32

  datatype NodeView = NodeView(name: string, height: Uint32, tip: string, reachable: bool, fsm: string, partitions: seq<string>)

  datatype Context = Context(maxHeight: Uint32, majorityTip: string, majorityHeight: Uint32, majorityCount: nat, nodes: map<string, NodeView>)

  // ---- what the context says -------------------------------------------------------------

  predicate Votes(n: NodeView, tip: string) { n.reachable && n.tip == tip }

  function VotesFor(nodes: seq<NodeView>, tip: string): nat {
    if nodes == [] then 0
    else VotesFor(nodes[..|nodes| - 1], tip) + if Votes(nodes[|nodes| - 1], tip) then 1 else 0
  }

  ghost predicate IsHighest(nodes: seq<NodeView>, h: nat) {
    && (forall i | 0 <= i < |nodes| && nodes[i].reachable :: nodes[i].height <= h)
    && (h == 0 || exists i | 0 <= i < |nodes| :: nodes[i].reachable && nodes[i].height == h)
  }

  // A tip some reachable node holds at height h.
  predicate Stands(n: NodeView, h: nat, tip: string) { n.reachable && n.tip == tip && tip != "" && n.height == h }

  ghost predicate Candidate(nodes: seq<NodeView>, h: nat, tip: string) {
    exists i | 0 <= i < |nodes| :: Stands(nodes[i], h, tip)
  }

  // More votes win, then the smaller hash.
  predicate Beats(count: nat, tip: string, otherCount: nat, other: string) {
    count > otherCount || (count == otherCount && Less(tip, other))
  }

  // Of the tips these nodes hold at h, counting the votes of all, the winner; "" if there are none.
  ghost predicate Wins(nodes: seq<NodeView>, all: seq<NodeView>, h: nat, tip: string, count: nat) {
    && (tip == "" <==> count == 0)
    && (tip != "" ==> Candidate(nodes, h, tip) && count == VotesFor(all, tip))
    && forall i | 0 <= i < |nodes| && Stands(nodes[i], h, nodes[i].tip) ::
        nodes[i].tip == tip || Beats(count, tip, VotesFor(all, nodes[i].tip), nodes[i].tip)
  }

  function ByName(nodes: seq<NodeView>): map<string, NodeView> {
    if nodes == [] then map[] else ByName(nodes[..|nodes| - 1])[nodes[|nodes| - 1].name := nodes[|nodes| - 1]]
  }

  ghost predicate Describes(c: Context, nodes: seq<NodeView>) {
    && IsHighest(nodes, c.maxHeight)
    && Wins(nodes, nodes, c.maxHeight, c.majorityTip, c.majorityCount)
    && c.majorityHeight == (if c.majorityTip == "" then 0 else c.maxHeight)
    && c.nodes == ByName(nodes)
  }

  // The tip called the majority's is held by a reachable node at the highest height any of them has, and no tip so
  // held has more votes, or as many and a smaller hash.
  lemma {:induction false} MajorityIs(c: Context, nodes: seq<NodeView>, i: nat)
    requires Describes(c, nodes) && i < |nodes|
    requires nodes[i].reachable && nodes[i].tip != "" && nodes[i].height == c.maxHeight
    ensures forall j | 0 <= j < |nodes| && nodes[j].reachable :: nodes[j].height <= c.maxHeight
    ensures c.majorityTip != "" && c.majorityHeight == c.maxHeight
    ensures exists j | 0 <= j < |nodes| ::
      nodes[j].reachable && nodes[j].height == c.maxHeight && nodes[j].tip == c.majorityTip
    ensures nodes[i].tip == c.majorityTip || VotesFor(nodes, nodes[i].tip) < c.majorityCount
      || (VotesFor(nodes, nodes[i].tip) == c.majorityCount && exists k :: SmallerAt(c.majorityTip, nodes[i].tip, k))
    ensures c.majorityCount == VotesFor(nodes, c.majorityTip)
  {
    var h := c.maxHeight;
    assert Stands(nodes[i], h, nodes[i].tip);
    VotesOfOne(nodes, i);
    LessIs(c.majorityTip, nodes[i].tip);
    var j :| 0 <= j < |nodes| && Stands(nodes[j], h, c.majorityTip);
    assert nodes[j].reachable && nodes[j].height == c.maxHeight && nodes[j].tip == c.majorityTip;
  }

  // ---- building it -----------------------------------------------------------------------

  method Survey(nodes: seq<NodeView>) returns (maxHeight: Uint32, tips: map<string, nat>, byName: map<string, NodeView>)
    ensures IsHighest(nodes, maxHeight) && byName == ByName(nodes)
    ensures forall t | t != "" :: (if t in tips then tips[t] else 0) == VotesFor(nodes, t)
  {
    maxHeight, tips, byName := 0, map[], map[];
    for i := 0 to |nodes|
      invariant IsHighest(nodes[..i], maxHeight) && byName == ByName(nodes[..i])
      invariant forall t | t != "" :: (if t in tips then tips[t] else 0) == VotesFor(nodes[..i], t)
    {
      var n := nodes[i];
      SurveyMore(nodes[..i], n, nodes[..i + 1]);
      byName := byName[n.name := n];
      HighestMore(nodes[..i], maxHeight, n, nodes[..i + 1]);
      if n.reachable {
        if n.height > maxHeight { maxHeight := n.height; }
        if n.tip != "" { tips := tips[n.tip := (if n.tip in tips then tips[n.tip] else 0) + 1]; }
      }
    }
    assert nodes[..|nodes|] == nodes;
  }

  lemma {:induction false} SurveyMore(nodes: seq<NodeView>, n: NodeView, more: seq<NodeView>)
    requires more == nodes + [n]
    ensures ByName(more) == ByName(nodes)[n.name := n]
    ensures forall t :: VotesFor(more, t) == VotesFor(nodes, t) + if n.reachable && n.tip == t then 1 else 0
  {
    assert more[..|nodes|] == nodes;
  }

  lemma {:induction false} HighestMore(nodes: seq<NodeView>, h: nat, n: NodeView, more: seq<NodeView>)
    requires IsHighest(nodes, h) && more == nodes + [n]
    ensures IsHighest(more, if n.reachable && n.height > h then n.height else h)
  {
    if n.reachable && n.height > h {
      assert more[|nodes|].height == n.height;
    } else if h != 0 {
      var i :| 0 <= i < |nodes| && nodes[i].reachable && nodes[i].height == h;
      assert more[i].reachable && more[i].height == h;
    }
  }

  lemma {:induction false} VotesOfOne(nodes: seq<NodeView>, i: nat)
    requires i < |nodes| && nodes[i].reachable
    ensures VotesFor(nodes, nodes[i].tip) > 0
  {
    if i < |nodes| - 1 { VotesOfOne(nodes[..|nodes| - 1], i); }
  }

  lemma {:induction false} BeatsIsTransitive(a: nat, s: string, b: nat, t: string, c: nat, u: string)
    requires Beats(a, s, b, t) && Beats(b, t, c, u)
    ensures Beats(a, s, c, u)
  {
    if a == b == c { LessIsTransitive(s, t, u); }
  }

  // One more node in the race.
  lemma {:induction false} WinsMore(nodes: seq<NodeView>, all: seq<NodeView>, h: nat, tip: string, count: nat, n: NodeView, more: seq<NodeView>)
    requires Wins(nodes, all, h, tip, count) && more == nodes + [n]
    requires n.reachable ==> VotesFor(all, n.tip) > 0
    ensures !Stands(n, h, n.tip) ==> Wins(more, all, h, tip, count)
    ensures Stands(n, h, n.tip) && Beats(VotesFor(all, n.tip), n.tip, count, tip) ==> Wins(more, all, h, n.tip, VotesFor(all, n.tip))
    ensures Stands(n, h, n.tip) && !Beats(VotesFor(all, n.tip), n.tip, count, tip) ==> Wins(more, all, h, tip, count)
  {
    if tip != "" {
      var i :| 0 <= i < |nodes| && Stands(nodes[i], h, tip);
      assert Stands(more[i], h, tip);
    }
    assert Stands(n, h, n.tip) ==> Stands(more[|nodes|], h, n.tip);
    var c := VotesFor(all, n.tip);
    if Stands(n, h, n.tip) && Beats(c, n.tip, count, tip) {
      forall i | 0 <= i < |nodes| && Stands(nodes[i], h, nodes[i].tip)
        ensures nodes[i].tip == n.tip || Beats(c, n.tip, VotesFor(all, nodes[i].tip), nodes[i].tip)
      {
        if nodes[i].tip != tip {
          BeatsIsTransitive(c, n.tip, count, tip, VotesFor(all, nodes[i].tip), nodes[i].tip);
        }
      }
    } else if Stands(n, h, n.tip) {
      LessIsTotal(n.tip, tip);
    }
  }

  method BuildFleetContext(nodes: seq<NodeView>) returns (c: Context)
    ensures Describes(c, nodes)
  {
    var maxHeight, tips, byName := Survey(nodes);
    var tip, height: Uint32, count := "", 0, 0;
    for i := 0 to |nodes|
      invariant Wins(nodes[..i], nodes, maxHeight, tip, count)
      invariant height == if tip == "" then 0 else maxHeight
    {
      var n := nodes[i];
      if n.reachable { VotesOfOne(nodes, i); }
      WinsMore(nodes[..i], nodes, maxHeight, tip, count, n, nodes[..i + 1]);
      if n.reachable && n.tip != "" && n.height == maxHeight {
        var votes := tips[n.tip];
        if votes > count || (votes == count && Less(n.tip, tip)) {
          tip, count, height := n.tip, votes, n.height;
        }
      }
    }
    assert nodes[..|nodes|] == nodes;
    c := Context(maxHeight, tip, height, count, byName);
  }

  // ---- the order of the nodes does not matter --------------------------------------------

  ghost predicate UniquelyNamed(nodes: seq<NodeView>) {
    forall i, j | 0 <= i < j < |nodes| :: nodes[i].name != nodes[j].name
  }

  // The same nodes in another order.
  ghost predicate Reordered(a: seq<NodeView>, b: seq<NodeView>) {
    UniquelyNamed(a) && UniquelyNamed(b) && forall n :: n in a <==> n in b
  }

  ghost function Voters(nodes: seq<NodeView>, tip: string): set<NodeView> {
    set n | n in nodes && Votes(n, tip)
  }

  lemma {:induction false} VotesAreVoters(nodes: seq<NodeView>, tip: string)
    requires UniquelyNamed(nodes)
    ensures VotesFor(nodes, tip) == |Voters(nodes, tip)|
  {
    if nodes != [] {
      var init, last := nodes[..|nodes| - 1], nodes[|nodes| - 1];
      VotesAreVoters(init, tip);
      assert last !in init;
      assert Voters(nodes, tip) == Voters(init, tip) + if Votes(last, tip) then {last} else {} by {
        assert forall n :: n in nodes <==> n in init || n == last;
      }
    }
  }

  lemma {:induction false} VotersAre(nodes: seq<NodeView>, tip: string, n: NodeView)
    ensures n in Voters(nodes, tip) <==> n in nodes && n.reachable && n.tip == tip
  {
  }

  lemma {:induction false} SameVotes(a: seq<NodeView>, b: seq<NodeView>, tip: string)
    requires Reordered(a, b)
    ensures VotesFor(a, tip) == VotesFor(b, tip)
  {
    VotesAreVoters(a, tip);
    VotesAreVoters(b, tip);
    assert Voters(a, tip) == Voters(b, tip);
  }

  lemma {:induction false} ByNameHolds(nodes: seq<NodeView>)
    requires UniquelyNamed(nodes)
    ensures forall n | n in nodes :: n.name in ByName(nodes) && ByName(nodes)[n.name] == n
    ensures forall k | k in ByName(nodes) :: ByName(nodes)[k] in nodes && ByName(nodes)[k].name == k
  {
    if nodes != [] {
      var init, last := nodes[..|nodes| - 1], nodes[|nodes| - 1];
      ByNameHolds(init);
      assert forall n :: n in nodes <==> n in init || n == last;
      assert forall n | n in init :: n.name != last.name;
    }
  }

  lemma {:induction false} HighestIsOne(a: seq<NodeView>, b: seq<NodeView>, g: nat, h: nat)
    requires (forall n :: n in a <==> n in b) && IsHighest(a, g) && IsHighest(b, h)
    ensures g <= h
  {
    if g != 0 {
      var i :| 0 <= i < |a| && a[i].reachable && a[i].height == g;
      assert a[i] in b;
    }
  }

  lemma {:induction false} WinnerIsOne(a: seq<NodeView>, b: seq<NodeView>, h: nat, s: string, m: nat, t: string, n: nat)
    requires Reordered(a, b) && Wins(a, a, h, s, m) && Wins(b, b, h, t, n)
    ensures s == t && m == n
  {
    if s != t {
      WinnerHolds(a, b, h, s, m, t, n);
      WinnerHolds(b, a, h, t, n, s, m);
      if m == n && Less(s, t) { LessIsStrict(s, t); }
    } else if s != "" {
      SameVotes(a, b, s);
    }
  }

  // The winner of one order is no loser in the other.
  lemma {:induction false} WinnerHolds(a: seq<NodeView>, b: seq<NodeView>, h: nat, s: string, m: nat, t: string, n: nat)
    requires Reordered(a, b) && Wins(a, a, h, s, m) && Wins(b, b, h, t, n) && s != t
    ensures s != "" ==> Beats(n, t, m, s)
  {
    if s != "" {
      var i :| 0 <= i < |a| && Stands(a[i], h, s);
      assert a[i] in b;
      var j :| 0 <= j < |b| && b[j] == a[i];
      SameVotes(a, b, s);
    }
  }

  // The context is the same whatever order uniquely named nodes are listed in.
  lemma {:induction false} OrderDoesNotMatter(a: seq<NodeView>, b: seq<NodeView>, c: Context, d: Context)
    requires Reordered(a, b) && Describes(c, a) && Describes(d, b)
    ensures c == d
  {
    HighestIsOne(a, b, c.maxHeight, d.maxHeight);
    HighestIsOne(b, a, d.maxHeight, c.maxHeight);
    WinnerIsOne(a, b, c.maxHeight, c.majorityTip, c.majorityCount, d.majorityTip, d.majorityCount);
    ByNameHolds(a);
    ByNameHolds(b);
    assert c.nodes == d.nodes;
  }
}
