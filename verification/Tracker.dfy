/**
 * Reconciling what the wallet believes with what the network did (internal/walletsvc/tracker.go,
 * internal/arcade/tx.go): a bounded table of transactions and the queue that polls it.
 */
module Tracker {
  import opened Basics

  type Txid = string
  type Status = string
  type Instant = int  // nanoseconds

  const REJECTED: Status := "REJECTED"
  const NOT_FOUND: Status := "NOT_FOUND"
  const UNKNOWN: Status := "UNKNOWN"
  const MINED: Status := "MINED"
  const IMMUTABLE: Status := "IMMUTABLE"
  const DOUBLE_SPEND: Status := "DOUBLE_SPEND_ATTEMPTED"

  const NEVER: Instant := -62_135_596_800_000_000_000
  const REJECTED_GRACE: Instant := 120_000_000_000
  const NOT_FOUND_GRACE: Instant := 600_000_000_000
  const DEFAULT_MAX: nat := 2000

  predicate IsSettled(s: Status) { s == MINED || s == IMMUTABLE || s == DOUBLE_SPEND }

  predicate IsGood(s: Status) { s == MINED || s == IMMUTABLE }

  datatype Row = Row(
    shape: string,
    target: string,
    satoshis: int,
    walletStatus: string,
    arcadeStatus: Status,
    blockHeight: nat,
    extraInfo: string,
    competing: seq<Txid>,
    terminal: bool,
    diverged: bool
  )

  datatype Tracked = Tracked(row: Row, created: Instant, lastPolled: Instant, rejectedAt: Option<Instant>)

  datatype Record = Record(status: Status, blockHeight: nat, extraInfo: string, competing: seq<Txid>)

  // ---- one row ---------------------------------------------------------------------------

  function Divergence(r: Row, rejectedAt: Option<Instant>, now: Instant): bool {
    || r.arcadeStatus == DOUBLE_SPEND
    || (r.arcadeStatus == REJECTED && rejectedAt.Some? && now - rejectedAt.value > REJECTED_GRACE
        && (r.walletStatus == "completed" || r.walletStatus == "unproven"))
    || (r.walletStatus == "failed" && IsGood(r.arcadeStatus))
  }

  // What an answer does to the rejection mark: the first rejection sets it, forward progress clears
  // it, and neither a settled status nor "not found" touches it.
  function Marked(rejectedAt: Option<Instant>, s: Status, now: Instant): Option<Instant> {
    if IsSettled(s) || s == NOT_FOUND then rejectedAt
    else if s == REJECTED then (if rejectedAt.None? then Some(now) else rejectedAt)
    else None
  }

  function Finishes(created: Instant, rejectedAt: Option<Instant>, s: Status, now: Instant): bool {
    || IsSettled(s)
    || (s == REJECTED && rejectedAt.Some? && now - rejectedAt.value > REJECTED_GRACE)
    || (s == NOT_FOUND && now - created > NOT_FOUND_GRACE)
  }

  function Shown(created: Instant, s: Status, now: Instant): Status {
    if s == NOT_FOUND && now - created > NOT_FOUND_GRACE then UNKNOWN else s
  }

  function Applied(e: Tracked, rec: Record, now: Instant): Tracked {
    var row := e.row.(
      arcadeStatus := Shown(e.created, rec.status, now),
      blockHeight := if rec.blockHeight > 0 then rec.blockHeight else e.row.blockHeight,
      extraInfo := if rec.extraInfo != "" then rec.extraInfo else e.row.extraInfo,
      competing := if rec.competing != [] then rec.competing else e.row.competing,
      terminal := e.row.terminal || Finishes(e.created, e.rejectedAt, rec.status, now));
    var mark := Marked(e.rejectedAt, rec.status, now);
    Tracked(row.(diverged := Divergence(row, mark, now)), e.created, now, mark)
  }

  function NewRow(shape: string, target: string, satoshis: int, walletStatus: string, now: Instant): Tracked {
    Tracked(Row(shape, target, satoshis, walletStatus, "", 0, "", [], false, false), now, NEVER, None)
  }

  function WithWalletStatus(e: Tracked, s: string, now: Instant): Tracked {
    var row := e.row.(walletStatus := s);
    e.(row := row.(diverged := row.diverged || Divergence(row, e.rejectedAt, now)))
  }

  // ---- the table -------------------------------------------------------------------------

  datatype Table = Table(rows: map<Txid, Tracked>, order: seq<Txid>)

  // The rows' index: order lists every row once and nothing else.
  ghost predicate Agrees(t: Table) {
    && (forall i, j | 0 <= i < j < |t.order| :: t.order[i] != t.order[j])
    && forall id :: id in t.order <==> id in t.rows
  }

  function Without(rows: map<Txid, Tracked>, id: Txid): map<Txid, Tracked> { rows - {id} }

  function Evicted(t: Table, max: nat): (r: Table)
    requires max > 0
    ensures |r.order| == if |t.order| > max then max else |t.order|
    ensures r.order == t.order[|t.order| - |r.order|..]
    decreases |t.order|
  {
    if |t.order| > max then
      var rest := t.order[1..];
      var kept := Evicted(Table(Without(t.rows, t.order[0]), rest), max);
      assert rest[|rest| - |kept.order|..] == t.order[|t.order| - |kept.order|..];
      kept
    else t
  }

  function Noted(t: Table, max: nat, id: Txid, e: Tracked): Table
    requires max > 0
  {
    if id == "" then t
    else if id in t.rows then
      if e.row.walletStatus == "" then t
      else t.(rows := t.rows[id := t.rows[id].(row := t.rows[id].row.(walletStatus := e.row.walletStatus))])
    else Evicted(Table(t.rows[id := e], t.order + [id]), max)
  }

  function StatusSet(t: Table, id: Txid, s: string, now: Instant): Table {
    if id == "" || s == "" then t
    else if id in t.rows then t.(rows := t.rows[id := WithWalletStatus(t.rows[id], s, now)])
    else Table(t.rows[id := WithWalletStatus(NewRow("", "", 0, "", now), s, now)], t.order + [id])
  }

  datatype Answer = Found(rec: Record) | Missing | Unavailable

  datatype Reply = Reply(answer: Answer, now: Instant, cancelled: bool)

  // What one reply does to the row it was asked for, if that is still in the table.
  function Answered(t: Table, id: Txid, r: Reply): Table {
    if id !in t.rows then t
    else
      var e := t.rows[id];
      match r.answer
      case Found(rec) => t.(rows := t.rows[id := Applied(e, rec, r.now)])
      case Missing => t.(rows := t.rows[id := Applied(e, Record(NOT_FOUND, 0, "", []), r.now)])
      case Unavailable => t.(rows := t.rows[id := e.(lastPolled := r.now)])
  }

  // The replies to the ids asked, up to a cancellation.
  function AllAnswered(t: Table, ids: seq<Txid>, rs: seq<Reply>): Table
    requires |ids| <= |rs|
    decreases |ids|
  {
    if ids == [] then t
    else
      var next := Answered(t, ids[0], rs[0]);
      if rs[0].cancelled then next else AllAnswered(next, ids[1..], rs[1..])
  }

  // A row keeps what it has until it is asked about, and a sweep asks no further once it is cancelled.
  lemma {:induction false} UnaskedStays(t: Table, ids: seq<Txid>, rs: seq<Reply>, k: nat, x: Txid)
    requires |ids| <= |rs| && k <= |ids| && (k < |ids| ==> k > 0 && rs[k - 1].cancelled) && x !in ids[..k]
    ensures x in AllAnswered(t, ids, rs).rows <==> x in t.rows
    ensures x in t.rows ==> AllAnswered(t, ids, rs).rows[x] == t.rows[x]
    decreases |ids|
  {
    if ids != [] {
      assert ids[..k][0] == ids[0];
      if !rs[0].cancelled {
        assert ids[..k] == [ids[0]] + ids[1..][..k - 1];
        assert k < |ids| ==> k > 1 && rs[1..][k - 2] == rs[k - 1];
        UnaskedStays(Answered(t, ids[0], rs[0]), ids[1..], rs[1..], k - 1, x);
      }
    }
  }

  lemma {:induction false} OneEvicted(t: Table)
    requires Agrees(t) && t.order != []
    ensures Agrees(Table(Without(t.rows, t.order[0]), t.order[1..]))
  {
    var next := Table(Without(t.rows, t.order[0]), t.order[1..]);
    forall id ensures id in next.order <==> id in next.rows {
      assert t.order == [t.order[0]] + next.order;
    }
  }

  lemma {:induction false} EvictionAgrees(t: Table, max: nat)
    requires Agrees(t) && max > 0
    ensures Agrees(Evicted(t, max))
    ensures forall id | id in Evicted(t, max).rows :: id in t.rows && Evicted(t, max).rows[id] == t.rows[id]
    decreases |t.order|
  {
    if |t.order| > max {
      OneEvicted(t);
      EvictionAgrees(Table(Without(t.rows, t.order[0]), t.order[1..]), max);
    }
  }

  lemma {:induction false} NotingAgrees(t: Table, max: nat, id: Txid, e: Tracked)
    requires Agrees(t) && max > 0
    ensures Agrees(Noted(t, max, id, e))
    ensures id != "" && id !in t.rows ==> id in Noted(t, max, id, e).rows && |Noted(t, max, id, e).order| <= max
  {
    if id != "" && id !in t.rows {
      var grown := Table(t.rows[id := e], t.order + [id]);
      GrownAgrees(t, id, e);
      EvictionAgrees(grown, max);
      EvictionKeepsLast(grown, max);
    }
  }

  // A first note adds a row with what it says, never asked about and with nothing known; another only changes the
  // wallet status, if it gives one. The other rows are as they were, or evicted.
  lemma {:induction false} NotedRows(
      t: Table, max: nat, id: Txid, shape: string, target: string, satoshis: int, wallet: string, now: Instant)
    requires Agrees(t) && max > 0 && id != ""
    ensures var u := Noted(t, max, id, NewRow(shape, target, satoshis, wallet, now));
      && id in u.rows
      && (id !in t.rows ==>
            u.rows[id] == Tracked(Row(shape, target, satoshis, wallet, "", 0, "", [], false, false), now, NEVER, None))
      && (id in t.rows ==>
            && u.order == t.order
            && u.rows[id] == t.rows[id].(row := t.rows[id].row.(
                 walletStatus := if wallet == "" then t.rows[id].row.walletStatus else wallet)))
      && forall x | x in u.rows && x != id :: x in t.rows && u.rows[x] == t.rows[x]
  {
    if id !in t.rows {
      var e := NewRow(shape, target, satoshis, wallet, now);
      var grown := Table(t.rows[id := e], t.order + [id]);
      NotingAgrees(t, max, id, e);
      GrownAgrees(t, id, e);
      EvictionAgrees(grown, max);
    }
  }

  // A wallet status comes to the row it is for, or to a new one that is nothing else.
  lemma {:induction false} StatusRows(t: Table, id: Txid, s: string, now: Instant)
    requires id != "" && s != ""
    ensures var u := StatusSet(t, id, s, now);
      && id in u.rows && u.rows[id].row.walletStatus == s
      && (id in t.rows ==> u.rows[id].(row := t.rows[id].row) == t.rows[id])
      && (id !in t.rows ==> u.rows[id].created == now && u.rows[id].lastPolled == NEVER && !u.rows[id].row.terminal)
      && (forall x | x != id :: (x in u.rows <==> x in t.rows) && (x in t.rows ==> u.rows[x] == t.rows[x]))
  {
  }

  lemma {:induction false} GrownAgrees(t: Table, id: Txid, e: Tracked)
    requires Agrees(t) && id !in t.rows
    ensures Agrees(Table(t.rows[id := e], t.order + [id]))
  {
  }

  lemma {:induction false} EvictionKeepsLast(t: Table, max: nat)
    requires max > 0 && t.order != []
    ensures t.order[|t.order| - 1] in Evicted(t, max).order
  {
    var kept := Evicted(t, max).order;
    assert kept[|kept| - 1] == t.order[|t.order| - 1];
  }

  lemma {:induction false} StatusAgrees(t: Table, id: Txid, s: string, now: Instant)
    requires Agrees(t)
    ensures Agrees(StatusSet(t, id, s, now))
  {
  }

  // A wallet sweep evicts nothing: it leaves a table within its bound exactly when it does not bring a new
  // row into one that is full.
  lemma {:induction false} SweepDoesNotEvict(t: Table, max: nat, id: Txid, s: string, now: Instant)
    requires |t.order| <= max
    ensures |StatusSet(t, id, s, now).order| <= max <==> !(id != "" && s != "" && id !in t.rows && |t.order| == max)
    ensures id in t.rows ==> StatusSet(t, id, s, now).order == t.order
  {
  }

  // ---- what to poll ----------------------------------------------------------------------

  function Active(rows: map<Txid, Tracked>): set<Txid> {
    set id | id in rows && !rows[id].row.terminal
  }

  // The ids are the limit least recently polled rows that are not terminal.
  ghost predicate LeastRecent(ids: seq<Txid>, rows: map<Txid, Tracked>, limit: nat) {
    && (forall i, j | 0 <= i < j < |ids| :: ids[i] != ids[j] && LastPolled(rows, ids[i]) <= LastPolled(rows, ids[j]))
    && (forall i | 0 <= i < |ids| :: ids[i] in Active(rows))
    && |ids| == (if limit < |Active(rows)| then limit else |Active(rows)|)
    && forall i, id | 0 <= i < |ids| && id in Active(rows) && id !in ids :: LastPolled(rows, ids[i]) <= LastPolled(rows, id)
  }

  function LastPolled(rows: map<Txid, Tracked>, id: Txid): Instant {
    if id in rows then rows[id].lastPolled else NEVER
  }

  datatype Candidate = Candidate(id: Txid, at: Instant)

  ghost predicate Candidates(cs: seq<Candidate>, rows: map<Txid, Tracked>, ids: set<Txid>) {
    && (forall i, j | 0 <= i < j < |cs| :: cs[i].id != cs[j].id)
    && (forall i | 0 <= i < |cs| :: cs[i].id in ids && cs[i].at == LastPolled(rows, cs[i].id))
    && |cs| == |ids|
  }

  // Collecting the rows in whatever order the map yields them.
  method Collect(rows: map<Txid, Tracked>) returns (cs: array<Candidate>)
    ensures fresh(cs) && Candidates(cs[..], rows, Active(rows))
  {
    var found: seq<Candidate> := [];
    var left := rows.Keys;
    ghost var seen: set<Txid> := {};
    while left != {}
      invariant left <= rows.Keys
      invariant seen == set id | id in Active(rows) && id !in left
      invariant Candidates(found, rows, seen)
      decreases |left|
    {
      var id :| id in left;
      left := left - {id};
      if !rows[id].row.terminal {
        assert forall i | 0 <= i < |found| :: found[i].id in seen;
        seen := seen + {id};
        found := found + [Candidate(id, rows[id].lastPolled)];
      }
    }
    assert seen == Active(rows);
    cs := new Candidate[|found|](i requires 0 <= i < |found| => found[i]);
    assert cs[..] == found;
  }

  // The exchange sort, by time of last poll.
  method SortByAge(cs: array<Candidate>, ghost rows: map<Txid, Tracked>, ghost ids: set<Txid>)
    requires Candidates(cs[..], rows, ids)
    modifies cs
    ensures Candidates(cs[..], rows, ids)
    ensures forall i, j | 0 <= i < j < cs.Length :: cs[i].at <= cs[j].at
  {
    for i := 0 to cs.Length
      invariant Candidates(cs[..], rows, ids)
      invariant forall a, b | 0 <= a < i && a < b < cs.Length :: cs[a].at <= cs[b].at
    {
      for j := i + 1 to cs.Length
        invariant Candidates(cs[..], rows, ids)
        invariant forall a, b | 0 <= a < i && a < b < cs.Length :: cs[a].at <= cs[b].at
        invariant forall b | i < b < j :: cs[i].at <= cs[b].at
      {
        if cs[j].at < cs[i].at {
          ghost var before := cs[..];
          cs[i], cs[j] := cs[j], cs[i];
          assert cs[..] == before[i := before[j]][j := before[i]];
        }
      }
    }
  }

  lemma {:induction false} CandidatesCover(cs: seq<Candidate>, rows: map<Txid, Tracked>, ids: set<Txid>, id: Txid)
    requires Candidates(cs, rows, ids) && id in ids
    ensures exists i :: 0 <= i < |cs| && cs[i].id == id
  {
    CandidateIds(cs);
    var listed := set i | 0 <= i < |cs| :: cs[i].id;
    assert listed <= ids;
    SubsetOfSameSize(listed, ids);
  }

  lemma {:induction false} CandidateIds(cs: seq<Candidate>)
    requires forall i, j | 0 <= i < j < |cs| :: cs[i].id != cs[j].id
    ensures |set i | 0 <= i < |cs| :: cs[i].id| == |cs|
  {
    if cs != [] {
      var n := |cs| - 1;
      CandidateIds(cs[..n]);
      var before := set i | 0 <= i < n :: cs[..n][i].id;
      assert (set i | 0 <= i < |cs| :: cs[i].id) == before + {cs[n].id};
    }
  }

  lemma {:induction false} SubsetOfSameSize(a: set<Txid>, b: set<Txid>)
    requires a <= b && |a| == |b|
    ensures a == b
  {
    assert |b - a| == |b| - |a|;
    assert b == a + (b - a);
  }

  method Due(rows: map<Txid, Tracked>, limit: nat) returns (out: seq<Txid>)
    ensures LeastRecent(out, rows, limit)
  {
    var cs := Collect(rows);
    SortByAge(cs, rows, Active(rows));
    out := [];
    var i := 0;
    while i < cs.Length && |out| < limit
      invariant 0 <= i <= cs.Length && i == |out| <= limit
      invariant forall k | 0 <= k < i :: out[k] == cs[k].id
    {
      out := out + [cs[i].id];
      i := i + 1;
    }
    forall k, id | 0 <= k < |out| && id in Active(rows) && id !in out
      ensures LastPolled(rows, out[k]) <= LastPolled(rows, id)
    {
      CandidatesCover(cs[..], rows, Active(rows), id);
      var m :| 0 <= m < cs.Length && cs[m].id == id;
      assert forall a | 0 <= a < |out| :: cs[a].id in out;
    }
  }
}
