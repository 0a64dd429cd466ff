/**
 * How large the tracker's table gets over any run (internal/walletsvc/tracker.go): a note of a new
 * transaction evicts down to the bound, a wallet sweep never does.
 */
module TrackerBound {
  import opened Tracker
  import opened TrackerHistory

  // The actions that bring in a row.
  predicate NewNote(w: World, a: Action) { a.Note? && a.id != "" && a.id !in w.table.rows }

  predicate NewSweep(w: World, a: Action) { a.Sweep? && a.id != "" && a.status != "" && a.id !in w.table.rows }

  lemma {:induction false} SizeAfter(w: World, a: Action, max: nat)
    requires max > 0
    ensures var n := |w.table.order|;
      |Next(w, a, max).table.order|
      == if NewNote(w, a) then (if n + 1 > max then max else n + 1) else if NewSweep(w, a) then n + 1 else n
  {
  }

  // No row is noted for the first time on the way.
  ghost predicate Unnoted(w: World, trace: seq<Action>, max: nat)
    requires max > 0
    decreases |trace|
  {
    trace == [] || (!NewNote(w, trace[0]) && Unnoted(Next(w, trace[0], max), trace[1..], max))
  }

  // How many rows sweeps bring in on the way.
  function Swept(w: World, trace: seq<Action>, max: nat): nat
    requires max > 0
    decreases |trace|
  {
    if trace == [] then 0
    else (if NewSweep(w, trace[0]) then 1 else 0) + Swept(Next(w, trace[0], max), trace[1..], max)
  }

  lemma {:induction false} UnnotedGrows(w: World, trace: seq<Action>, max: nat, v: World)
    requires max > 0 && Reaches(w, trace, max, v) && Unnoted(w, trace, max)
    ensures |v.table.order| == |w.table.order| + Swept(w, trace, max)
    decreases |trace|
  {
    if trace != [] {
      SizeAfter(w, trace[0], max);
      UnnotedGrows(Next(w, trace[0], max), trace[1..], max, v);
    }
  }

  // Having come by these actions, action a notes a transaction for the first time and leaves m.
  ghost predicate FirstNoted(w: World, before: seq<Action>, a: Action, max: nat, m: World)
    requires max > 0
  {
    exists p :: Reaches(w, before, max, p) && NewNote(p, a) && m == Next(p, a, max)
  }

  lemma {:induction false} OneEarlier(w: World, trace: seq<Action>, max: nat, i: nat, v: World)
    requires max > 0 && i < |trace| && Enabled(w, trace[0]) && Reaches(Next(w, trace[0], max), trace[1..][..i], max, v)
    ensures Reaches(w, trace[..i + 1], max, v)
  {
    assert trace[..i + 1][1..] == trace[1..][..i];
  }

  lemma {:induction false} NotedEarlier(w: World, trace: seq<Action>, max: nat, i: nat, m: World)
    requires max > 0 && 0 < i < |trace| && Enabled(w, trace[0])
    requires FirstNoted(Next(w, trace[0], max), trace[1..][..i - 1], trace[1..][i - 1], max, m)
    ensures FirstNoted(w, trace[..i], trace[i], max, m)
  {
    var p :| Reaches(Next(w, trace[0], max), trace[1..][..i - 1], max, p) && NewNote(p, trace[i]) && m == Next(p, trace[i], max);
    OneEarlier(w, trace, max, i - 1, p);
  }

  // Since the last first note on the way, at whose time the table was within its bound, no other was made.
  lemma {:induction false} LastNote(w: World, trace: seq<Action>, max: nat, v: World) returns (k: nat, m: World)
    requires max > 0 && Reaches(w, trace, max, v) && !Unnoted(w, trace, max)
    ensures 0 < k <= |trace| && Reaches(w, trace[..k], max, m) && Reaches(m, trace[k..], max, v)
    ensures FirstNoted(w, trace[..k - 1], trace[k - 1], max, m)
    ensures |m.table.order| <= max && Unnoted(m, trace[k..], max)
    decreases |trace|
  {
    var rest, next := trace[1..], Next(w, trace[0], max);
    if Unnoted(next, rest, max) {
      SizeAfter(w, trace[0], max);
      k, m := 1, next;
      assert Reaches(next, rest[..0], max, next);
      OneEarlier(w, trace, max, 0, next);
      assert Reaches(w, trace[..0], max, w);
    } else {
      var i;
      i, m := LastNote(next, rest, max, v);
      k := i + 1;
      assert trace[k..] == rest[i..];
      OneEarlier(w, trace, max, i, m);
      NotedEarlier(w, trace, max, i, m);
    }
  }

  // In every reachable state the table is over its bound by no more than the rows that sweeps brought in
  // since the last first note, or the start if there was none: it holds those and the ones it held then, at
  // most the bound.
  lemma {:induction false} OverBoundBySweeps(start: Instant, trace: seq<Action>, max: nat, v: World) returns (k: nat, m: World)
    requires max > 0 && Reaches(Empty(start), trace, max, v)
    ensures k <= |trace| && Reaches(Empty(start), trace[..k], max, m) && Reaches(m, trace[k..], max, v)
    ensures if k == 0 then m == Empty(start) else FirstNoted(Empty(start), trace[..k - 1], trace[k - 1], max, m)
    ensures |m.table.order| <= max && Unnoted(m, trace[k..], max)
    ensures |v.table.order| == |m.table.order| + Swept(m, trace[k..], max)
    ensures |v.table.order| <= max <==> Swept(m, trace[k..], max) <= max - |m.table.order|
  {
    if Unnoted(Empty(start), trace, max) {
      k, m := 0, Empty(start);
      assert trace[..0] == [] && trace[0..] == trace;
    } else {
      k, m := LastNote(Empty(start), trace, max, v);
    }
    UnnotedGrows(m, trace[k..], max, v);
  }

  // And the next first note brings it back, however far over it is.
  lemma {:induction false} NoteBringsBack(w: World, a: Action, max: nat)
    requires max > 0 && NewNote(w, a)
    ensures |Next(w, a, max).table.order| <= max
    ensures |w.table.order| >= max ==> |Next(w, a, max).table.order| == max
  {
    SizeAfter(w, a, max);
  }

  // Two sweeps into a table bounded by one row.
  lemma {:induction false} TwoSweeps(start: Instant)
    ensures exists w :: Reaches(Empty(start), [Sweep("a", "seen"), Sweep("b", "seen")], 1, w) && |w.table.order| == 2
  {
    var trace := [Sweep("a", "seen"), Sweep("b", "seen")];
    var one := Next(Empty(start), trace[0], 1);
    var two := Next(one, trace[1], 1);
    assert trace[1..] == [trace[1]] && trace[1..][1..] == [];
    assert Reaches(two, [], 1, two) && Reaches(one, trace[1..], 1, two);
    assert Reaches(Empty(start), trace, 1, two);
    SizeAfter(Empty(start), trace[0], 1);
    assert "b" !in one.table.rows;
    SizeAfter(one, trace[1], 1);
  }
}
