/**
 * Why a row is terminal: every reachable row against the history of answers it got.
 *
 * Notes, wallet sweeps and polls interleave freely; a poll's replies arrive one by one, and rows
 * may be evicted and noted again in between. There is one poller, as in the service.
 */
module TrackerHistory {
  import opened Basics
  import opened Tracker

  // One answer about a transaction, and when it came.
  datatype Observation = Observation(status: Status, now: Instant)

  type History = seq<Observation>

  // What a row remembers of its history.
  datatype Fate = Fate(terminal: bool, rejectedAt: Option<Instant>, shown: Status)

  function Replay(created: Instant, h: History): Fate {
    if h == [] then Fate(false, None, "")
    else
      var n := |h| - 1;
      var before, o := Replay(created, h[..n]), h[n];
      Fate(before.terminal || Finishes(created, before.rejectedAt, o.status, o.now),
           Marked(before.rejectedAt, o.status, o.now),
           Shown(created, o.status, o.now))
  }

  function FateOf(e: Tracked): Fate { Fate(e.row.terminal, e.rejectedAt, e.row.arcadeStatus) }

  // Time does not run backwards, and a row is not asked again once it is terminal.
  ghost predicate Plausible(created: Instant, h: History, clock: Instant) {
    && (forall i, j | 0 <= i < j < |h| :: h[i].now <= h[j].now)
    && (forall i | 0 <= i < |h| :: h[i].now <= clock)
    && forall n | 0 <= n < |h| :: !Replay(created, h[..n]).terminal
  }

  // ---- the justification -----------------------------------------------------------------

  predicate Refusal(s: Status) { s == REJECTED || s == NOT_FOUND }

  // The rejection at i has stood since: only rejections and "not found" came after it.
  ghost predicate StandingRejection(h: History, i: int) {
    0 <= i < |h| && h[i].status == REJECTED && forall k | i <= k < |h| :: Refusal(h[k].status)
  }

  // The rejection at i has stood, for more than its grace before the last answer.
  ghost predicate LongRejected(h: History, i: int)
    requires h != []
  {
    StandingRejection(h, i) && h[|h| - 1].now - h[i].now > REJECTED_GRACE
  }

  // The three ways for a row to be finished.
  ghost predicate Justified(created: Instant, h: History) {
    h != [] &&
    var last := h[|h| - 1];
    || last.status in {MINED, IMMUTABLE, DOUBLE_SPEND}
    || (last.status == REJECTED && exists i :: LongRejected(h, i))
    || (last.status == NOT_FOUND && last.now - created > NOT_FOUND_GRACE)
  }

  // The mark is the time of the first standing rejection.
  ghost predicate MarksFirst(h: History, mark: Option<Instant>) {
    match mark
    case None => forall i :: !StandingRejection(h, i)
    case Some(t) =>
      && (exists i :: StandingRejection(h, i) && h[i].now == t)
      && forall i :: StandingRejection(h, i) ==> t <= h[i].now
  }

  lemma {:induction false} StandingExtends(h: History, o: Observation, i: int)
    ensures 0 <= i < |h| ==> (StandingRejection(h + [o], i) <==> StandingRejection(h, i) && Refusal(o.status))
  {
    if 0 <= i < |h| {
      assert (h + [o])[i] == h[i] && (h + [o])[|h|] == o;
      if StandingRejection(h + [o], i) {
        forall k | i <= k < |h| ensures Refusal(h[k].status) {
          assert (h + [o])[k] == h[k];
        }
      }
    }
  }

  lemma {:induction false} MarkExtends(h: History, o: Observation, mark: Option<Instant>)
    requires MarksFirst(h, mark) && !IsSettled(o.status)
    requires forall i | 0 <= i < |h| :: h[i].now <= o.now
    ensures MarksFirst(h + [o], Marked(mark, o.status, o.now))
  {
    var g, n := h + [o], |h|;
    forall i: int ensures 0 <= i < n ==> (StandingRejection(g, i) <==> StandingRejection(h, i) && Refusal(o.status)) {
      StandingExtends(h, o, i);
    }
    assert StandingRejection(g, n) <==> o.status == REJECTED;
    if mark.Some? && Refusal(o.status) {
      var i :| StandingRejection(h, i) && h[i].now == mark.value;
      assert StandingRejection(g, i) && g[i].now == mark.value;
    } else if o.status == REJECTED {
      assert g[n].now == o.now;
    }
  }

  lemma {:induction false} MarkIsFirstRejection(created: Instant, h: History, clock: Instant)
    requires Plausible(created, h, clock) && !Replay(created, h).terminal
    ensures MarksFirst(h, Replay(created, h).rejectedAt)
  {
    if h != [] {
      var n := |h| - 1;
      PlausiblePrefix(created, h, clock);
      MarkIsFirstRejection(created, h[..n], clock);
      MarkExtends(h[..n], h[n], Replay(created, h[..n]).rejectedAt);
      assert h == h[..n] + [h[n]];
    }
  }

  lemma {:induction false} PlausiblePrefix(created: Instant, h: History, clock: Instant)
    requires Plausible(created, h, clock) && h != []
    ensures Plausible(created, h[..|h| - 1], clock) && !Replay(created, h[..|h| - 1]).terminal
  {
    var p := h[..|h| - 1];
    forall n | 0 <= n < |p| ensures !Replay(created, p[..n]).terminal {
      assert p[..n] == h[..n];
    }
  }

  // A row is terminal exactly when its answers justify it.
  lemma {:induction false} TerminalIffJustified(created: Instant, h: History, clock: Instant)
    requires Plausible(created, h, clock)
    ensures Replay(created, h).terminal <==> Justified(created, h)
  {
    if h != [] {
      var n := |h| - 1;
      var before, o := h[..n], h[n];
      PlausiblePrefix(created, h, clock);
      MarkIsFirstRejection(created, before, clock);
      var mark := Replay(created, before).rejectedAt;
      if o.status == REJECTED {
        assert h == before + [o];
        forall i: int ensures LongRejected(h, i) <==> StandingRejection(before, i) && o.now - before[i].now > REJECTED_GRACE {
          StandingExtends(before, o, i);
        }
        if mark.Some? && o.now - mark.value > REJECTED_GRACE {
          var i :| StandingRejection(before, i) && before[i].now == mark.value;
          assert LongRejected(h, i);
        }
      }
    }
  }

  // ---- every interleaving ----------------------------------------------------------------

  datatype World = World(table: Table, hist: map<Txid, History>, pending: seq<Txid>, clock: Instant)

  datatype Action =
    | Note(id: Txid, row: Row)
    | Sweep(id: Txid, status: string)
    | Begin(ids: seq<Txid>, limit: nat)
    | Receive(answer: Answer)   // to the next pending question
    | Abandon                   // the sweep's context ended
    | Tick(now: Instant)

  // Rows keep their history while they stay; a row that comes in starts without one.
  function Carried(w: World, t: Table): World {
    w.(table := t, hist := map id | id in t.rows :: if id in w.table.rows && id in w.hist then w.hist[id] else [])
  }

  // What an answer adds to a history; an unavailable network adds nothing.
  function Learned(h: History, answer: Answer, now: Instant): History {
    match answer
    case Found(rec) => h + [Observation(rec.status, now)]
    case Missing => h + [Observation(NOT_FOUND, now)]
    case Unavailable => h
  }

  ghost predicate Enabled(w: World, a: Action) {
    match a
    case Begin(ids, limit) => w.pending == [] && LeastRecent(ids, w.table.rows, limit)
    case Receive(_) => w.pending != []
    case Tick(now) => now >= w.clock
    case _ => true
  }

  function Next(w: World, a: Action, max: nat): World
    requires max > 0
  {
    match a
    case Note(id, row) =>
      Carried(w, Noted(w.table, max, id, NewRow(row.shape, row.target, row.satoshis, row.walletStatus, w.clock)))
    case Sweep(id, s) => Carried(w, StatusSet(w.table, id, s, w.clock))
    case Begin(ids, limit) => w.(pending := ids)
    case Receive(answer) =>
      if w.pending == [] then w
      else
        var id := w.pending[0];
        World(Answered(w.table, id, Reply(answer, w.clock, false)),
              if id in w.table.rows && id in w.hist then w.hist[id := Learned(w.hist[id], answer, w.clock)] else w.hist,
              w.pending[1..], w.clock)
    case Abandon => w.(pending := [])
    case Tick(now) => w.(clock := now)
  }

  ghost predicate RowInv(e: Tracked, h: History, clock: Instant) {
    FateOf(e) == Replay(e.created, h) && Plausible(e.created, h, clock)
  }

  ghost predicate Inv(w: World) {
    && Agrees(w.table)
    && w.hist.Keys == w.table.rows.Keys
    && (forall id | id in w.table.rows :: RowInv(w.table.rows[id], w.hist[id], w.clock))
    && (forall i, j | 0 <= i < j < |w.pending| :: w.pending[i] != w.pending[j])
    && forall id | id in w.pending && id in w.table.rows :: !w.table.rows[id].row.terminal
  }

  ghost predicate Reaches(w: World, trace: seq<Action>, max: nat, v: World)
    requires max > 0
    decreases |trace|
  {
    if trace == [] then v == w
    else Enabled(w, trace[0]) && Reaches(Next(w, trace[0], max), trace[1..], max, v)
  }

  lemma {:induction false} ObservationKeepsRow(e: Tracked, h: History, rec: Record, clock: Instant)
    requires RowInv(e, h, clock) && !e.row.terminal
    ensures RowInv(Applied(e, rec, clock), h + [Observation(rec.status, clock)], clock)
  {
    var g := h + [Observation(rec.status, clock)];
    assert g[..|h|] == h;
    forall n | 0 <= n < |g| ensures !Replay(e.created, g[..n]).terminal {
      assert g[..n] == h[..n];
      if n == |h| { assert h[..n] == h; }
    }
  }

  // The asked id is not pending any more; what still is was before.
  lemma {:induction false} PendingRest(w: World, v: World)
    requires w.pending != [] && v.pending == w.pending[1..]
    requires forall i, j | 0 <= i < j < |w.pending| :: w.pending[i] != w.pending[j]
    ensures w.pending[0] !in v.pending && forall x | x in v.pending :: x in w.pending
    ensures forall i, j | 0 <= i < j < |v.pending| :: v.pending[i] != v.pending[j]
  {
    assert forall i | 0 <= i < |v.pending| :: v.pending[i] == w.pending[i + 1];
  }

  // The row asked about may be replaced by any that agrees with its history.
  lemma {:induction false} AskedRowReplaced(w: World, v: World, id: Txid)
    requires Inv(w) && w.pending != [] && id == w.pending[0] && id in w.table.rows
    requires v.pending == w.pending[1..] && v.clock == w.clock && v.table.order == w.table.order
    requires id in v.table.rows && v.table.rows == w.table.rows[id := v.table.rows[id]]
    requires id in v.hist && v.hist == w.hist[id := v.hist[id]]
    requires RowInv(v.table.rows[id], v.hist[id], v.clock)
    ensures Inv(v)
  {
    PendingRest(w, v);
    forall x | x in v.table.rows ensures RowInv(v.table.rows[x], v.hist[x], v.clock) {
      if x != id { assert RowInv(w.table.rows[x], w.hist[x], w.clock); }
    }
  }

  lemma {:induction false} AnswerKeepsRow(t: Table, id: Txid, h: History, answer: Answer, clock: Instant)
    requires id in t.rows && RowInv(t.rows[id], h, clock) && !t.rows[id].row.terminal
    ensures var u := Answered(t, id, Reply(answer, clock, false));
            && u.order == t.order && id in u.rows && u.rows == t.rows[id := u.rows[id]]
            && RowInv(u.rows[id], Learned(h, answer, clock), clock)
  {
    match answer
    case Found(rec) => ObservationKeepsRow(t.rows[id], h, rec, clock);
    case Missing => ObservationKeepsRow(t.rows[id], h, Record(NOT_FOUND, 0, "", []), clock);
    case Unavailable =>
  }

  lemma {:induction false} ReceiveKeepsInv(w: World, answer: Answer, max: nat)
    requires Inv(w) && w.pending != [] && max > 0
    ensures Inv(Next(w, Receive(answer), max))
  {
    var id, v := w.pending[0], Next(w, Receive(answer), max);
    assert id in w.pending;
    if id in w.table.rows {
      AnswerKeepsRow(w.table, id, w.hist[id], answer, w.clock);
      AskedRowReplaced(w, v, id);
    } else {
      assert v == w.(pending := w.pending[1..]);
      assert w.pending == [id] + v.pending;
    }
  }

  // What a table change leaves of a row: its fate and its time of creation.
  ghost predicate SameFates(t: Table, u: Table) {
    forall id | id in u.rows ::
      if id in t.rows then FateOf(u.rows[id]) == FateOf(t.rows[id]) && u.rows[id].created == t.rows[id].created
      else FateOf(u.rows[id]) == Fate(false, None, "")
  }

  // A table change that keeps what rows remember, and brings in only rows without a history.
  lemma {:induction false} CarriedKeepsInv(w: World, t: Table)
    requires Inv(w) && Agrees(t) && SameFates(w.table, t)
    ensures Inv(Carried(w, t))
  {
    var v := Carried(w, t);
    forall id | id in t.rows ensures RowInv(t.rows[id], v.hist[id], w.clock) {
      if id in w.table.rows { assert RowInv(w.table.rows[id], w.hist[id], w.clock); }
    }
    forall id | id in v.pending && id in t.rows ensures !t.rows[id].row.terminal {
      if id in w.table.rows { assert FateOf(t.rows[id]) == FateOf(w.table.rows[id]); }
    }
  }

  lemma {:induction false} EvictionKeepsFates(t: Table, grown: Table, max: nat)
    requires Agrees(grown) && max > 0 && SameFates(t, grown)
    ensures SameFates(t, Evicted(grown, max))
  {
    EvictionAgrees(grown, max);
    var u := Evicted(grown, max);
    forall id | id in u.rows
      ensures if id in t.rows then FateOf(u.rows[id]) == FateOf(t.rows[id]) && u.rows[id].created == t.rows[id].created
              else FateOf(u.rows[id]) == Fate(false, None, "")
    {
      assert u.rows[id] == grown.rows[id];
    }
  }

  lemma {:induction false} GrowthKeepsFates(t: Table, id: Txid, e: Tracked)
    requires Agrees(t) && id !in t.rows && FateOf(e) == Fate(false, None, "")
    ensures Agrees(Table(t.rows[id := e], t.order + [id])) && SameFates(t, Table(t.rows[id := e], t.order + [id]))
  {
  }

  lemma {:induction false} NoteKeepsFates(t: Table, max: nat, id: Txid, e: Tracked)
    requires Agrees(t) && max > 0 && FateOf(e) == Fate(false, None, "")
    ensures Agrees(Noted(t, max, id, e)) && SameFates(t, Noted(t, max, id, e))
  {
    NotingAgrees(t, max, id, e);
    if id != "" {
      if id !in t.rows {
        GrowthKeepsFates(t, id, e);
        EvictionKeepsFates(t, Table(t.rows[id := e], t.order + [id]), max);
      } else {
        var row := t.rows[id].row.(walletStatus := e.row.walletStatus);
        assert SameFates(t, Table(t.rows[id := t.rows[id].(row := row)], t.order));
      }
    }
  }

  lemma {:induction false} SweepKeepsFates(t: Table, id: Txid, s: string, now: Instant)
    requires Agrees(t)
    ensures Agrees(StatusSet(t, id, s, now)) && SameFates(t, StatusSet(t, id, s, now))
  {
    StatusAgrees(t, id, s, now);
  }

  lemma {:induction false} StepKeepsInv(w: World, a: Action, max: nat)
    requires Inv(w) && Enabled(w, a) && max > 0
    ensures Inv(Next(w, a, max))
  {
    match a
    case Note(id, row) =>
      var e := NewRow(row.shape, row.target, row.satoshis, row.walletStatus, w.clock);
      NoteKeepsFates(w.table, max, id, e);
      CarriedKeepsInv(w, Noted(w.table, max, id, e));
    case Sweep(id, s) =>
      SweepKeepsFates(w.table, id, s, w.clock);
      CarriedKeepsInv(w, StatusSet(w.table, id, s, w.clock));
    case Begin(ids, limit) =>
    case Receive(answer) => ReceiveKeepsInv(w, answer, max);
    case Abandon =>
    case Tick(now) =>
  }

  lemma {:induction false} ReachedInv(w: World, trace: seq<Action>, max: nat, v: World)
    requires Inv(w) && max > 0 && Reaches(w, trace, max, v)
    ensures Inv(v)
    decreases |trace|
  {
    if trace != [] {
      StepKeepsInv(w, trace[0], max);
      ReachedInv(Next(w, trace[0], max), trace[1..], max, v);
    }
  }

  function Empty(clock: Instant): World { World(Table(map[], []), map[], [], clock) }

  // In every reachable state a row is terminal exactly when the answers it got since it was
  // created justify it, and then it shows the status that finished it.
  lemma {:induction false} TerminalRowsAreJustified(
      start: Instant, trace: seq<Action>, max: nat, w: World, id: Txid)
    requires max > 0 && Reaches(Empty(start), trace, max, w) && id in w.table.rows
    ensures id in w.hist
    ensures w.table.rows[id].row.terminal <==> Justified(w.table.rows[id].created, w.hist[id])
    ensures var row, h := w.table.rows[id].row, w.hist[id];
            row.terminal ==>
              row.arcadeStatus == if h[|h| - 1].status == NOT_FOUND then UNKNOWN else h[|h| - 1].status
  {
    ReachedInv(Empty(start), trace, max, w);
    TerminalIffJustified(w.table.rows[id].created, w.hist[id], w.clock);
  }

  // The table's index agrees with its rows in every reachable state.
  lemma {:induction false} IndexAlwaysAgrees(start: Instant, trace: seq<Action>, max: nat, w: World)
    requires max > 0 && Reaches(Empty(start), trace, max, w)
    ensures Agrees(w.table)
  {
    ReachedInv(Empty(start), trace, max, w);
  }

  lemma {:induction false} FateStays(w: World, t: Table, id: Txid)
    requires Inv(w) && SameFates(w.table, t) && id in w.table.rows && id in t.rows
    ensures FateOf(t.rows[id]) == FateOf(w.table.rows[id]) && Carried(w, t).hist[id] == w.hist[id]
  {
  }

  lemma {:induction false} NoQuestionPending(w: World, a: Action, id: Txid)
    requires Inv(w) && Enabled(w, a) && id in w.table.rows && w.table.rows[id].row.terminal
    ensures a.Receive? ==> w.pending[0] != id
    ensures a.Begin? ==> id !in a.ids
  {
    if a.Receive? {
      assert w.pending[0] in w.pending;
    } else if a.Begin? {
      assert forall i | 0 <= i < |a.ids| :: a.ids[i] in Active(w.table.rows);
    }
  }

  lemma {:induction false} TableChangeKeepsFate(w: World, a: Action, max: nat, id: Txid)
    requires Inv(w) && max > 0 && (a.Note? || a.Sweep?)
    requires id in w.table.rows && id in Next(w, a, max).table.rows
    ensures FateOf(Next(w, a, max).table.rows[id]) == FateOf(w.table.rows[id])
    ensures Next(w, a, max).hist[id] == w.hist[id]
  {
    match a
    case Note(n, row) =>
      NoteKeepsFates(w.table, max, n, NewRow(row.shape, row.target, row.satoshis, row.walletStatus, w.clock));
      FateStays(w, Next(w, a, max).table, id);
    case Sweep(n, s) =>
      SweepKeepsFates(w.table, n, s, w.clock);
      FateStays(w, Next(w, a, max).table, id);
    case _ =>
  }

  lemma {:induction false} TerminalKept(w: World, a: Action, max: nat, id: Txid)
    requires max > 0 && Inv(w) && Enabled(w, a)
    requires id in w.table.rows && w.table.rows[id].row.terminal && id in Next(w, a, max).table.rows
    requires a.Receive? ==> w.pending[0] != id
    ensures FateOf(Next(w, a, max).table.rows[id]) == FateOf(w.table.rows[id])
    ensures id in w.hist && id in Next(w, a, max).hist && Next(w, a, max).hist[id] == w.hist[id]
  {
    if a.Note? || a.Sweep? { TableChangeKeepsFate(w, a, max, id); }
  }

  // A terminal row stays as it is, and no answer about it is ever received again, for as long as it
  // is in the table.
  lemma {:induction false} TerminalStays(
      start: Instant, trace: seq<Action>, max: nat, w: World, a: Action, id: Txid)
    requires max > 0 && Reaches(Empty(start), trace, max, w) && Enabled(w, a)
    requires id in w.table.rows && w.table.rows[id].row.terminal
    ensures id in Next(w, a, max).table.rows ==>
              && FateOf(Next(w, a, max).table.rows[id]) == FateOf(w.table.rows[id])
              && id in w.hist && id in Next(w, a, max).hist && Next(w, a, max).hist[id] == w.hist[id]
    ensures a.Receive? ==> w.pending[0] != id
    ensures a.Begin? ==> id !in a.ids
  {
    ReachedInv(Empty(start), trace, max, w);
    NoQuestionPending(w, a, id);
    if id in Next(w, a, max).table.rows { TerminalKept(w, a, max, id); }
  }
}
