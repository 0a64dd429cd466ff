/** The tracker object: its table and the methods that change it, one sweep at a time. */
module TrackerService {
  import opened Basics
  import opened Tracker

  // The rows that diverge now and did not before.
  ghost function NewlyDiverged(t: Table, u: Table): set<Txid> {
    set id | id in u.rows && id in t.rows && u.rows[id].row.diverged && !t.rows[id].row.diverged
  }

  // The rows still to be asked about are as they were.
  ghost predicate Unasked(t: Table, u: Table, left: seq<Txid>) {
    && u.rows.Keys == t.rows.Keys
    && (forall x | x in left && x in t.rows :: u.rows[x] == t.rows[x])
    && forall i, j | 0 <= i < j < |left| :: left[i] != left[j]
  }

  lemma {:induction false} OneAsked(t: Table, u: Table, v: Table, left: seq<Txid>, first: bool)
    requires left != [] && Unasked(t, u, left) && v.rows.Keys == u.rows.Keys
    requires forall x | x in v.rows && x != left[0] :: v.rows[x] == u.rows[x]
    requires first <==> left[0] in v.rows && v.rows[left[0]].row.diverged && !u.rows[left[0]].row.diverged
    ensures Unasked(t, v, left[1..])
    ensures NewlyDiverged(t, v) == NewlyDiverged(t, u) + if first then {left[0]} else {}
  {
    assert left[0] in left && left[0] !in left[1..];
  }

  class Service {
    const max: nat
    const hasArcade: bool
    var rows: map<Txid, Tracked>
    var order: seq<Txid>

    ghost predicate Valid()
      reads this
    {
      max > 0 && Agrees(View())
    }

    function View(): Table
      reads this
    {
      Table(rows, order)
    }

    constructor (max: int, hasArcade: bool)
      ensures Valid() && View() == Table(map[], [])
      ensures this.max == if max <= 0 then DEFAULT_MAX else max
      ensures this.hasArcade == hasArcade
    {
      this.max := if max <= 0 then DEFAULT_MAX else max;
      this.hasArcade := hasArcade;
      rows, order := map[], [];
    }

    method Note(id: Txid, shape: string, target: string, satoshis: int, walletStatus: string, now: Instant)
      requires Valid()
      modifies this
      ensures Valid()
      ensures View() == Noted(old(View()), max, id, NewRow(shape, target, satoshis, walletStatus, now))
    {
      NotingAgrees(View(), max, id, NewRow(shape, target, satoshis, walletStatus, now));
      if id == "" {
        return;
      }
      if id in rows {
        if walletStatus != "" {
          rows := rows[id := rows[id].(row := rows[id].row.(walletStatus := walletStatus))];
        }
        return;
      }
      rows := rows[id := NewRow(shape, target, satoshis, walletStatus, now)];
      order := order + [id];
      Evict();
    }

    // Dropping the oldest rows over the bound.
    method Evict()
      requires max > 0
      modifies this
      ensures View() == Evicted(old(View()), max)
    {
      ghost var all := Evicted(View(), max);
      while |order| > max
        invariant Evicted(Table(rows, order), max) == all
        decreases |order|
      {
        rows, order := Without(rows, order[0]), order[1..];
      }
    }

    method SetWalletStatus(id: Txid, status: string, now: Instant)
      requires Valid()
      modifies this
      ensures Valid()
      ensures View() == StatusSet(old(View()), id, status, now)
    {
      StatusAgrees(View(), id, status, now);
      if id == "" || status == "" {
        return;
      }
      if id !in rows {
        rows := rows[id := NewRow("", "", 0, "", now)];
        order := order + [id];
      }
      var e := rows[id];
      var row := e.row.(walletStatus := status);
      if Divergence(row, e.rejectedAt, now) {
        row := row.(diverged := true);
      }
      rows := rows[id := e.(row := row)];
    }

    method Touch(id: Txid, now: Instant)
      requires Valid()
      modifies this`rows
      ensures Valid()
      ensures View() == Answered(old(View()), id, Reply(Unavailable, now, false))
      ensures rows == if id in old(rows) then old(rows)[id := old(rows)[id].(lastPolled := now)] else old(rows)
    {
      if id in rows {
        rows := rows[id := rows[id].(lastPolled := now)];
      }
    }

    // What a record does to a row, step by step.
    static method Judge(e: Tracked, rec: Record, now: Instant) returns (r: Tracked)
      ensures r == Applied(e, rec, now)
      ensures r.created == e.created && r.lastPolled == now && (e.row.terminal ==> r.row.terminal)
      ensures r.row.blockHeight == if rec.blockHeight > 0 then rec.blockHeight else e.row.blockHeight
      ensures r.row.extraInfo == if rec.extraInfo != "" then rec.extraInfo else e.row.extraInfo
      ensures r.row.competing == if rec.competing != [] then rec.competing else e.row.competing
      ensures r.row.(arcadeStatus := e.row.arcadeStatus, blockHeight := e.row.blockHeight, extraInfo := e.row.extraInfo,
                     competing := e.row.competing, terminal := e.row.terminal, diverged := e.row.diverged) == e.row
    {
      var row := e.row.(arcadeStatus := rec.status);
      if rec.blockHeight > 0 {
        row := row.(blockHeight := rec.blockHeight);
      }
      if rec.extraInfo != "" {
        row := row.(extraInfo := rec.extraInfo);
      }
      if rec.competing != [] {
        row := row.(competing := rec.competing);
      }
      var rejectedAt;
      row, rejectedAt := Ruled(row, e.created, e.rejectedAt, now);
      return Tracked(row.(diverged := Divergence(row, rejectedAt, now)), e.created, now, rejectedAt);
    }

    // The switch on the status a row now shows.
    static method Ruled(shown: Row, created: Instant, rejected: Option<Instant>, now: Instant)
      returns (row: Row, rejectedAt: Option<Instant>)
      ensures rejectedAt == Marked(rejected, shown.arcadeStatus, now)
      ensures row == shown.(
        arcadeStatus := Shown(created, shown.arcadeStatus, now),
        terminal := shown.terminal || Finishes(created, rejected, shown.arcadeStatus, now))
    {
      row, rejectedAt := shown, rejected;
      if IsSettled(shown.arcadeStatus) {
        row := row.(terminal := true);
      } else if shown.arcadeStatus == REJECTED {
        if rejectedAt.None? {
          rejectedAt := Some(now);
        } else if now - rejectedAt.value > REJECTED_GRACE {
          row := row.(terminal := true);
        }
      } else if shown.arcadeStatus == NOT_FOUND {
        if now - created > NOT_FOUND_GRACE {
          row := row.(arcadeStatus := UNKNOWN, terminal := true);
        }
      } else {
        rejectedAt := None;
      }
    }

    // The result says whether a divergence is published: only when the row starts to diverge.
    method Apply(id: Txid, rec: Record, now: Instant) returns (published: bool)
      requires Valid()
      modifies this`rows
      ensures Valid()
      ensures View() == Answered(old(View()), id, Reply(Found(rec), now, false))
      ensures published <==> id in rows && rows[id].row.diverged && !old(rows[id].row.diverged)
    {
      if id !in rows {
        return false;
      }
      var e := Judge(rows[id], rec, now);
      published := e.row.diverged && !rows[id].row.diverged;
      rows := rows[id := e];
    }

    // One sweep: the replies are what the network answers, in the order it is asked. A divergence is published for
    // just the rows the sweep makes diverge.
    method Poll(limit: nat, replies: seq<Reply>) returns (ids: seq<Txid>, published: set<Txid>)
      requires Valid() && |replies| >= limit
      modifies this`rows
      ensures Valid() && |ids| <= limit
      ensures !hasArcade ==> ids == []
      ensures hasArcade ==> LeastRecent(ids, old(rows), limit)
      ensures View() == AllAnswered(old(View()), ids, replies)
      ensures published == NewlyDiverged(old(View()), View())
    {
      published := {};
      if !hasArcade {
        ids := [];
        return;
      }
      ids := Due(rows, limit);
      ghost var left, answers, all := ids, replies, AllAnswered(View(), ids, replies);
      ghost var was := View();
      var i := 0;
      while i < |ids|
        invariant 0 <= i <= |ids| && Valid()
        invariant left == ids[i..] && answers == replies[i..]
        invariant AllAnswered(View(), left, answers) == all
        invariant published == NewlyDiverged(was, View()) && Unasked(was, View(), left)
      {
        ghost var before := View();
        var first := Take(ids[i], replies[i]);
        if first { published := published + {ids[i]}; }
        OneAsked(was, before, View(), left, first);
        if replies[i].cancelled {
          return;
        }
        i := i + 1;
        left, answers := left[1..], answers[1..];
      }
    }

    // One row's turn in a sweep.
    method Take(id: Txid, reply: Reply) returns (published: bool)
      requires Valid()
      modifies this`rows
      ensures Valid()
      ensures View() == Answered(old(View()), id, reply)
      ensures rows.Keys == old(rows).Keys && forall x | x in rows && x != id :: rows[x] == old(rows)[x]
      ensures published <==> id in rows && rows[id].row.diverged && !old(rows)[id].row.diverged
    {
      published := false;
      match reply.answer {
        case Found(rec) => published := Apply(id, rec, reply.now);
        case Missing => published := Apply(id, Record(NOT_FOUND, 0, "", []), reply.now);
        case Unavailable => Touch(id, reply.now);
      }
    }
  }
}
