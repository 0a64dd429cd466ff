/** How soon a row that stays unsettled is asked again. */
module TrackerFairness {
  import opened Tracker

  // When each row worth polling was last polled.
  type Ages = map<Txid, Instant>

  function AgesOf(rows: map<Txid, Tracked>): Ages {
    map id | id in Active(rows) :: LastPolled(rows, id)
  }

  // A poll that got through its whole list, at times later than any before: it asked the least
  // recent rows, they are now the most recent, the others are as they were, and none is new.
  ghost predicate CompletePoll(before: Ages, asked: set<Txid>, after: Ages, limit: nat) {
    && asked <= before.Keys
    && |asked| == (if limit < |before| then limit else |before|)
    && (forall a, id | a in asked && id in before && id !in asked :: before[a] <= before[id])
    && after.Keys <= before.Keys
    && (forall id | id in after && id !in asked :: after[id] == before[id])
    && forall a, id | a in after && a in asked && id in before :: before[id] < after[a]
  }

  // The rows that are asked before r.
  function Ahead(ages: Ages, r: Txid): set<Txid>
    requires r in ages
  {
    set id | id in ages && id != r && ages[id] <= ages[r]
  }

  lemma {:induction false} AheadWithin(ages: Ages, r: Txid)
    requires r in ages
    ensures |Ahead(ages, r)| < |ages|
  {
    SubsetSize(Ahead(ages, r), ages.Keys - {r});
  }

  lemma {:induction false} SubsetSize(a: set<Txid>, b: set<Txid>)
    requires a <= b
    ensures |a| <= |b|
  {
    assert b == a + (b - a);
  }

  // A poll that passes r over takes limit rows from ahead of it.
  lemma {:induction false} PassedOver(before: Ages, asked: set<Txid>, after: Ages, limit: nat, r: Txid)
    requires CompletePoll(before, asked, after, limit) && r in after && r !in asked
    ensures |Ahead(after, r)| + limit <= |Ahead(before, r)|
  {
    SubsetSize(asked, before.Keys - {r});
    assert asked <= Ahead(before, r);
    assert Ahead(before, r) == asked + (Ahead(before, r) - asked);
    assert Ahead(after, r) <= Ahead(before, r) - asked;
    SubsetSize(Ahead(after, r), Ahead(before, r) - asked);
  }

  ghost predicate CompletePolls(ages: seq<Ages>, asked: seq<set<Txid>>, limit: nat) {
    && |ages| == |asked| + 1
    && forall k | 0 <= k < |asked| :: CompletePoll(ages[k], asked[k], ages[k + 1], limit)
  }

  lemma {:induction false} EachPollTakesLimit(ages: seq<Ages>, asked: seq<set<Txid>>, limit: nat, r: Txid)
    requires CompletePolls(ages, asked, limit)
    requires forall k | 0 <= k < |ages| :: r in ages[k]
    requires forall k | 0 <= k < |asked| :: r !in asked[k]
    ensures |Ahead(ages[|asked|], r)| + |asked| * limit <= |Ahead(ages[0], r)|
  {
    if asked != [] {
      var n := |asked| - 1;
      assert forall k | 0 <= k < n :: asked[..n][k] == asked[k];
      assert forall k | 0 <= k <= n :: ages[..n + 1][k] == ages[k];
      EachPollTakesLimit(ages[..n + 1], asked[..n], limit, r);
      PassedOver(ages[n], asked[n], ages[n + 1], limit, r);
      assert |asked| * limit == n * limit + limit;
    }
  }

  // Among n rows, any number of complete polls k with k * limit at least n asks every row that
  // stays worth polling: that is, ceil(n/limit) polls do.
  lemma {:induction false} AskedWithinCeiling(ages: seq<Ages>, asked: seq<set<Txid>>, limit: nat, r: Txid)
    requires CompletePolls(ages, asked, limit)
    requires forall k | 0 <= k < |ages| :: r in ages[k]
    requires |asked| * limit >= |ages[0]|
    ensures exists k :: 0 <= k < |asked| && r in asked[k]
  {
    if forall k | 0 <= k < |asked| :: r !in asked[k] {
      EachPollTakesLimit(ages, asked, limit, r);
      AheadWithin(ages[0], r);
      assert false;
    }
  }

  // ---- the tracker's polls are such polls ------------------------------------------------

  // The replies come later than every poll so far, and no cancellation cuts the sweep short.
  ghost predicate Timely(t: Table, ids: seq<Txid>, rs: seq<Reply>) {
    && |ids| <= |rs|
    && forall i | 0 <= i < |ids| :: !rs[i].cancelled && forall id | id in t.rows :: t.rows[id].lastPolled < rs[i].now
  }

  lemma {:induction false} AnswersInFull(t: Table, ids: seq<Txid>, rs: seq<Reply>, id: Txid)
    requires |ids| <= |rs| && forall i | 0 <= i < |ids| :: !rs[i].cancelled && ids[i] in t.rows
    requires forall i, j | 0 <= i < j < |ids| :: ids[i] != ids[j]
    ensures var u := AllAnswered(t, ids, rs);
            && (id in u.rows <==> id in t.rows) && u.order == t.order
            && (id in t.rows && id !in ids ==> u.rows[id] == t.rows[id])
            && (id in t.rows && t.rows[id].row.terminal ==> u.rows[id].row.terminal)
            && (id in ids ==> exists i :: 0 <= i < |ids| && u.rows[id].lastPolled == rs[i].now)
    decreases |ids|
  {
    if ids != [] {
      var next := Answered(t, ids[0], rs[0]);
      AnswersInFull(next, ids[1..], rs[1..], id);
      var u := AllAnswered(next, ids[1..], rs[1..]);
      assert u == AllAnswered(t, ids, rs);
      assert ids == [ids[0]] + ids[1..];
      if id == ids[0] {
        assert id !in ids[1..];
        assert u.rows[id].lastPolled == rs[0].now;
      } else if id in ids[1..] {
        var i :| 0 <= i < |ids[1..]| && u.rows[id].lastPolled == rs[1..][i].now;
        assert u.rows[id].lastPolled == rs[i + 1].now;
      }
    }
  }

  lemma {:induction false} SweepIsCompletePoll(t: Table, ids: seq<Txid>, rs: seq<Reply>, limit: nat)
    requires LeastRecent(ids, t.rows, limit) && Timely(t, ids, rs)
    ensures CompletePoll(AgesOf(t.rows), (set id | id in ids), AgesOf(AllAnswered(t, ids, rs).rows), limit)
  {
    var u, asked := AllAnswered(t, ids, rs), (set id | id in ids);
    DistinctSize(ids);
    assert AgesOf(t.rows).Keys == Active(t.rows);
    forall id | id in u.rows || id in t.rows
      ensures id in t.rows
      ensures id in Active(u.rows) ==> id in Active(t.rows)
      ensures id in Active(u.rows) && id !in asked ==> LastPolled(u.rows, id) == LastPolled(t.rows, id)
      ensures id in asked ==> forall x | x in Active(t.rows) :: LastPolled(t.rows, x) < LastPolled(u.rows, id)
    {
      SweepMoves(t, u, ids, rs, limit, id);
    }
  }

  lemma {:induction false} SweepMoves(t: Table, u: Table, ids: seq<Txid>, rs: seq<Reply>, limit: nat, id: Txid)
    requires LeastRecent(ids, t.rows, limit) && Timely(t, ids, rs) && u == AllAnswered(t, ids, rs)
    requires id in u.rows || id in t.rows
    ensures id in t.rows
    ensures id in Active(u.rows) ==> id in Active(t.rows)
    ensures id in Active(u.rows) && id !in ids ==> LastPolled(u.rows, id) == LastPolled(t.rows, id)
    ensures id in ids ==> forall x | x in Active(t.rows) :: LastPolled(t.rows, x) < LastPolled(u.rows, id)
  {
    AnswersInFull(t, ids, rs, id);
  }

  lemma {:induction false} DistinctSize(ids: seq<Txid>)
    requires forall i, j | 0 <= i < j < |ids| :: ids[i] != ids[j]
    ensures |(set id | id in ids)| == |ids|
  {
    if ids != [] {
      var n := |ids| - 1;
      DistinctSize(ids[..n]);
      assert ids == ids[..n] + [ids[n]];
      assert (set id | id in ids) == (set id | id in ids[..n]) + {ids[n]};
    }
  }

  // ---- a run of sweeps -------------------------------------------------------------------

  datatype Round = Round(ids: seq<Txid>, replies: seq<Reply>)

  // Sweeps in a row over the same rows, each asking the least recently polled and answered in full.
  ghost predicate Rounds(ts: seq<Table>, rounds: seq<Round>, limit: nat) {
    && |ts| == |rounds| + 1
    && forall k | 0 <= k < |rounds| :: OneRound(ts[k], rounds[k], ts[k + 1], limit)
  }

  ghost predicate OneRound(t: Table, r: Round, u: Table, limit: nat) {
    LeastRecent(r.ids, t.rows, limit) && Timely(t, r.ids, r.replies) && u == AllAnswered(t, r.ids, r.replies)
  }

  lemma {:induction false} ActiveBefore(ts: seq<Table>, rounds: seq<Round>, limit: nat, id: Txid, k: nat)
    requires Rounds(ts, rounds, limit) && k <= |rounds| && id in Active(ts[|rounds|].rows)
    ensures id in Active(ts[k].rows)
    decreases |rounds| - k
  {
    if k < |rounds| {
      ActiveBefore(ts, rounds, limit, id, k + 1);
      assert OneRound(ts[k], rounds[k], ts[k + 1], limit);
      SweepMoves(ts[k], ts[k + 1], rounds[k].ids, rounds[k].replies, limit, id);
    }
  }

  // A row that is not terminal after any number of sweeps k, k * limit at least the rows there were to poll,
  // was asked about in one of them.
  lemma {:induction false} AskedInRounds(ts: seq<Table>, rounds: seq<Round>, limit: nat, id: Txid)
    requires Rounds(ts, rounds, limit) && id in Active(ts[|rounds|].rows)
    requires |rounds| * limit >= |Active(ts[0].rows)|
    ensures exists k :: 0 <= k < |rounds| && id in rounds[k].ids
  {
    var ages := seq(|ts|, k requires 0 <= k < |ts| => AgesOf(ts[k].rows));
    var asked := seq(|rounds|, k requires 0 <= k < |rounds| => set x | x in rounds[k].ids);
    forall k | 0 <= k < |asked| ensures CompletePoll(ages[k], asked[k], ages[k + 1], limit) {
      assert OneRound(ts[k], rounds[k], ts[k + 1], limit);
      SweepIsCompletePoll(ts[k], rounds[k].ids, rounds[k].replies, limit);
    }
    forall k | 0 <= k < |ages| ensures id in ages[k] {
      ActiveBefore(ts, rounds, limit, id, k);
    }
    assert ages[0].Keys == Active(ts[0].rows);
    AskedWithinCeiling(ages, asked, limit, id);
    var k :| 0 <= k < |asked| && id in asked[k];
    assert id in rounds[k].ids;
  }
}
