/**
 * When a row is said to diverge: every reachable row against the answers it got and the wallet's status for it
 * (internal/walletsvc/tracker.go, divergence, apply and SetWalletStatus).
 */
module TrackerDivergence {
  import opened Basics
  import opened Tracker
  import opened TrackerHistory

  // A rejection has stood for more than its grace at this time.
  ghost predicate RejectedSince(h: History, now: Instant) {
    exists i :: StandingFor(h, i, now)
  }

  ghost predicate StandingFor(h: History, i: int, now: Instant) {
    StandingRejection(h, i) && now - h[i].now > REJECTED_GRACE
  }

  // The answers contradict the wallet: a conflicting spend was seen; or the wallet counts on a transaction the
  // network has rejected for good; or it gave up on one the network mined.
  ghost predicate Contradict(h: History, wallet: string, now: Instant) {
    h != [] &&
    var last := h[|h| - 1].status;
    || last == DOUBLE_SPEND
    || (last == REJECTED && RejectedSince(h, now) && (wallet == "completed" || wallet == "unproven"))
    || (last in {MINED, IMMUTABLE} && wallet == "failed")
  }

  // The mark is the first standing rejection behind every answer that settles nothing.
  lemma {:induction false} MarkAfter(created: Instant, h: History, clock: Instant)
    requires Plausible(created, h, clock) && h != [] && !IsSettled(h[|h| - 1].status)
    ensures MarksFirst(h, Replay(created, h).rejectedAt)
  {
    var n := |h| - 1;
    PlausiblePrefix(created, h, clock);
    MarkIsFirstRejection(created, h[..n], clock);
    MarkExtends(h[..n], h[n], Replay(created, h[..n]).rejectedAt);
    assert h == h[..n] + [h[n]];
  }

  lemma {:induction false} MarkTells(h: History, mark: Option<Instant>, now: Instant)
    requires MarksFirst(h, mark)
    ensures RejectedSince(h, now) <==> mark.Some? && now - mark.value > REJECTED_GRACE
  {
    if mark.Some? && now - mark.value > REJECTED_GRACE {
      var i :| StandingRejection(h, i) && h[i].now == mark.value;
      assert StandingFor(h, i, now);
    }
  }

  // The three grounds, told from a row that remembers its history.
  lemma {:induction false} DivergenceIs(e: Tracked, h: History, clock: Instant, now: Instant)
    requires RowInv(e, h, clock)
    ensures Divergence(e.row, e.rejectedAt, now) <==> Contradict(h, e.row.walletStatus, now)
  {
    if h != [] {
      var last := h[|h| - 1].status;
      assert e.row.arcadeStatus == Shown(e.created, last, h[|h| - 1].now);
      if !IsSettled(last) {
        MarkAfter(e.created, h, clock);
        MarkTells(h, e.rejectedAt, now);
      }
    }
  }

  // In every reachable state, a row that is just answered diverges exactly when its answers so far contradict
  // what the wallet says of it;
  lemma {:induction false} DivergedIffContradicted(
      start: Instant, trace: seq<Action>, max: nat, w: World, answer: Answer)
    requires max > 0 && Reaches(Empty(start), trace, max, w)
    requires w.pending != [] && w.pending[0] in w.table.rows && !answer.Unavailable?
    ensures var id, v := w.pending[0], Next(w, Receive(answer), max);
      && id in v.table.rows && id in v.hist
      && v.table.rows[id].row.walletStatus == w.table.rows[id].row.walletStatus
      && (v.table.rows[id].row.diverged <==> Contradict(v.hist[id], v.table.rows[id].row.walletStatus, w.clock))
  {
    var id, v := w.pending[0], Next(w, Receive(answer), max);
    ReachedInv(Empty(start), trace, max, w);
    ReceiveKeepsInv(w, answer, max);
    AnsweredRow(w, answer, max);
    assert RowInv(v.table.rows[id], v.hist[id], v.clock);
    DivergenceIs(v.table.rows[id], v.hist[id], v.clock, w.clock);
  }

  lemma {:induction false} AnsweredRow(w: World, answer: Answer, max: nat)
    requires max > 0 && Inv(w) && w.pending != [] && w.pending[0] in w.table.rows && !answer.Unavailable?
    ensures var id, v := w.pending[0], Next(w, Receive(answer), max);
      && id in v.table.rows && id in v.hist && v.clock == w.clock
      && v.table.rows[id].row.walletStatus == w.table.rows[id].row.walletStatus
      && v.table.rows[id].row.diverged == Divergence(v.table.rows[id].row, v.table.rows[id].rejectedAt, w.clock)
  {
  }

  // a wallet sweep sets the status and makes the row diverge if it contradicts the answers now, and takes no
  // divergence back.
  lemma {:induction false} SweptIffContradicted(
      start: Instant, trace: seq<Action>, max: nat, w: World, id: Txid, s: string)
    requires max > 0 && Reaches(Empty(start), trace, max, w) && id != "" && s != ""
    ensures var v := Next(w, Sweep(id, s), max);
      && id in v.table.rows && id in v.hist
      && v.table.rows[id].row.walletStatus == s
      && v.hist[id] == (if id in w.table.rows && id in w.hist then w.hist[id] else [])
      && (v.table.rows[id].row.diverged <==>
            (id in w.table.rows && w.table.rows[id].row.diverged) || Contradict(v.hist[id], s, w.clock))
  {
    var v := Next(w, Sweep(id, s), max);
    ReachedInv(Empty(start), trace, max, w);
    StepKeepsInv(w, Sweep(id, s), max);
    SweptRow(w, id, s, max);
    DivergenceIs(v.table.rows[id], v.hist[id], v.clock, w.clock);
  }

  lemma {:induction false} SweptRow(w: World, id: Txid, s: string, max: nat)
    requires max > 0 && id != "" && s != ""
    ensures var v := Next(w, Sweep(id, s), max);
      && id in v.table.rows && id in v.hist && v.clock == w.clock
      && v.table.rows[id].row.walletStatus == s
      && v.hist[id] == (if id in w.table.rows && id in w.hist then w.hist[id] else [])
      && (v.table.rows[id].row.diverged <==>
            || (id in w.table.rows && w.table.rows[id].row.diverged)
            || Divergence(v.table.rows[id].row, v.table.rows[id].rejectedAt, w.clock))
  {
  }

  // No other action makes a row diverge, or takes a divergence back, while the row stays.
  lemma {:induction false} DivergenceStays(w: World, a: Action, max: nat, id: Txid)
    requires max > 0 && Inv(w) && Enabled(w, a) && id in w.table.rows && id in Next(w, a, max).table.rows
    requires !(a.Sweep? && a.id == id) && !(a.Receive? && w.pending[0] == id && !a.answer.Unavailable?)
    ensures Next(w, a, max).table.rows[id].row.diverged == w.table.rows[id].row.diverged
  {
    match a
    case Note(n, row) =>
      NotedKeeps(w.table, max, n, NewRow(row.shape, row.target, row.satoshis, row.walletStatus, w.clock), id);
    case Sweep(n, s) => assert StatusSet(w.table, n, s, w.clock).rows[id] == w.table.rows[id];
    case Receive(answer) => ReceivedKeeps(w, answer, max, id);
    case _ =>
  }

  lemma {:induction false} ReceivedKeeps(w: World, answer: Answer, max: nat, id: Txid)
    requires max > 0 && w.pending != [] && id in w.table.rows && (w.pending[0] == id ==> answer.Unavailable?)
    ensures id in Next(w, Receive(answer), max).table.rows
    ensures Next(w, Receive(answer), max).table.rows[id].row == w.table.rows[id].row
  {
  }

  lemma {:induction false} NotedKeeps(t: Table, max: nat, id: Txid, e: Tracked, x: Txid)
    requires max > 0 && Agrees(t) && x in t.rows && x in Noted(t, max, id, e).rows
    ensures Noted(t, max, id, e).rows[x].row.diverged == t.rows[x].row.diverged
  {
    if id != "" && id !in t.rows {
      GrownAgrees(t, id, e);
      EvictionAgrees(Table(t.rows[id := e], t.order + [id]), max);
    }
  }
}
