/**
 * Tailing a container log over any series of polls.
 *
 * The log is one append-only sequence of physical lines; what a poll reads is some slice of
 * it. Nothing is assumed about where slices start and end except that a poll sees the entry
 * its cursor names. The theorems say which entries the successive pages deliver.
 */
module LogTail {
  import opened Basics
  import opened Decimal
  import opened LogScan
  import opened LogCursor
  import opened LogPage

  type Log = seq<RawLine>

  // ---- positions of structured lines -----------------------------------------------------

  // The structured lines at positions lo..hi, ascending.
  function Heads(log: Log, lo: nat, hi: nat): seq<nat>
    requires hi <= |log|
  {
    if lo >= hi then []
    else Heads(log, lo, hi - 1) + if log[hi - 1].Structured() then [hi - 1] else []
  }

  function NextStructured(log: Log, from: nat, hi: nat): (r: nat)
    requires from <= hi <= |log|
    ensures from <= r <= hi
    ensures r < hi ==> log[r].Structured()
    ensures forall j | from <= j < r :: !log[j].Structured()
    decreases hi - from
  {
    if from == hi || log[from].Structured() then from else NextStructured(log, from + 1, hi)
  }

  // The last structured line before hi, at or after the structured line p.
  function LastStructured(log: Log, p: nat, hi: nat): (r: nat)
    requires p < hi <= |log| && log[p].Structured()
    ensures p <= r < hi && log[r].Structured()
    ensures forall j | r < j < hi :: !log[j].Structured()
  {
    if p == hi - 1 || log[hi - 1].Structured() then hi - 1 else LastStructured(log, p, hi - 1)
  }

  predicate SameKey(a: RawLine, b: RawLine, mark: Marker) {
    a.at == b.at && mark(a.Head()) == mark(b.Head())
  }

  // The last structured line before hi that a cursor for line p would be taken for.
  function LastRepeat(log: Log, p: nat, hi: nat, mark: Marker): (q: nat)
    requires p < hi <= |log| && log[p].Structured()
    ensures p <= q < hi && log[q].Structured() && SameKey(log[p], log[q], mark)
    ensures forall j | q < j < hi && log[j].Structured() :: !SameKey(log[p], log[j], mark)
  {
    if p == hi - 1 || (log[hi - 1].Structured() && SameKey(log[p], log[hi - 1], mark)) then hi - 1
    else LastRepeat(log, p, hi - 1, mark)
  }

  lemma {:induction false} HeadsAre(log: Log, lo: nat, hi: nat, j: nat)
    requires hi <= |log|
    ensures j in Heads(log, lo, hi) <==> lo <= j < hi && log[j].Structured()
  {
    if lo < hi {
      HeadsAre(log, lo, hi - 1, j);
    }
  }

  lemma {:induction false} HeadsSplit(log: Log, lo: nat, mid: nat, hi: nat)
    requires lo <= mid <= hi <= |log|
    ensures Heads(log, lo, hi) == Heads(log, lo, mid) + Heads(log, mid, hi)
  {
    if mid < hi {
      HeadsSplit(log, lo, mid, hi - 1);
    }
  }

  lemma {:induction false} NoHeads(log: Log, lo: nat, hi: nat)
    requires hi <= |log|
    requires forall j | lo <= j < hi :: !log[j].Structured()
    ensures Heads(log, lo, hi) == []
  {
    if lo < hi {
      NoHeads(log, lo, hi - 1);
    }
  }

  // ---- entries and log positions ---------------------------------------------------------

  // What of an entry identifies it: everything but its number and its continuations.
  datatype Content = Content(at: Instant, fields: Fields)

  function Contents(lines: seq<Line>): seq<Content> {
    seq(|lines|, i requires 0 <= i < |lines| => Content(lines[i].at, lines[i].fields))
  }

  function ContentAt(log: Log, j: nat): Content {
    if j < |log| then Content(log[j].at, log[j].Head()) else Content(ZERO_TIME, Fields("", "", "", "", ""))
  }

  function ContentsAt(log: Log, places: seq<nat>): seq<Content> {
    seq(|places|, i requires 0 <= i < |places| => ContentAt(log, places[i]))
  }

  lemma {:induction false} FoldContents(prev: seq<Line>, r: RawLine, pos: int, raw: bool)
    requires prev != [] || r.Structured()
    ensures Contents(Fold(prev, r, pos, raw))
         == Contents(prev) + if r.Structured() then [Content(r.at, r.Head())] else []
  {
  }

  lemma {:induction false} EntriesContents(log: Log, lo: nat, hi: nat, start: int, raw: bool)
    requires lo <= hi <= |log| && (lo < hi ==> log[lo].Structured())
    ensures Contents(Entries(log[lo..hi], start, raw)) == ContentsAt(log, Heads(log, lo, hi))
  {
    if lo < hi {
      EntriesContents(log, lo, hi - 1, start, raw);
      ContentsMore(log[lo..hi - 1], log[hi - 1], log[lo..hi], start, raw);
      var before := Heads(log, lo, hi - 1);
      assert ContentsAt(log, before + [hi - 1]) == ContentsAt(log, before) + [ContentAt(log, hi - 1)];
    }
  }

  lemma {:induction false} ContentsMore(rs: seq<RawLine>, r: RawLine, more: seq<RawLine>, start: int, raw: bool)
    requires more == rs + [r] && (rs != [] || r.Structured())
    ensures Contents(Entries(more, start, raw))
         == Contents(Entries(rs, start, raw)) + if r.Structured() then [Content(r.at, r.Head())] else []
  {
    assert more[..|rs|] == rs;
    FoldContents(Entries(rs, start, raw), r, start + |rs|, raw);
  }

  // An entry and its continuations.
  lemma {:induction false} SingleEntry(rs: seq<RawLine>, start: int, raw: bool)
    requires rs != [] && rs[0].Structured()
    requires forall j | 0 < j < |rs| :: !rs[j].Structured()
    ensures |Entries(rs, start, raw)| == 1
    ensures Entries(rs, start, raw)[0].at == rs[0].at && Entries(rs, start, raw)[0].fields == rs[0].Head()
  {
    if |rs| > 1 {
      SingleEntry(rs[..|rs| - 1], start, raw);
    }
  }

  // ---- one poll --------------------------------------------------------------------------

  // The slice of the log a poll reads.
  datatype Window = Window(lo: nat, hi: nat)

  // Where a stream stands: its cursor names the structured line p, everything up to the line
  // `upto` has been read behind it, and `scanned` physical lines were counted.
  datatype Place = Place(p: nat, upto: nat, scanned: int)

  ghost predicate Stamped(log: Log) {
    forall j | 0 <= j < |log| :: log[j].at != ZERO_TIME && IsInt64(log[j].at)
  }

  ghost predicate WellPlaced(log: Log, pl: Place) {
    && pl.p < pl.upto <= |log|
    && log[pl.p].Structured()
    && (forall j | pl.p < j < pl.upto :: !log[j].Structured())
    && 0 <= pl.scanned <= pl.upto
  }

  function CursorFor(log: Log, pl: Place, mark: Marker): Cursor
    requires pl.p < |log|
  {
    Cursor(log[pl.p].at, mark(log[pl.p].Head()), pl.scanned)
  }

  ghost predicate Sees(log: Log, w: Window, pl: Place) {
    w.lo <= pl.p < w.hi <= |log|
  }

  // The first line of the window that the poll delivers.
  function FirstUnseen(log: Log, pl: Place, hi: nat, mark: Marker): (r: nat)
    requires pl.p < hi <= |log| && log[pl.p].Structured()
    ensures pl.p < r <= hi && (r < hi ==> log[r].Structured())
  {
    NextStructured(log, LastRepeat(log, pl.p, hi, mark) + 1, hi)
  }

  function Moved(log: Log, pl: Place, hi: nat, mark: Marker): Place
    requires pl.p < hi <= |log| && log[pl.p].Structured()
  {
    var from := FirstUnseen(log, pl, hi, mark);
    if from == hi then pl else Place(LastStructured(log, from, hi), hi, pl.scanned + hi - from)
  }

  lemma {:induction false} MovedWellPlaced(log: Log, pl: Place, hi: nat, mark: Marker)
    requires WellPlaced(log, pl) && pl.p < hi <= |log|
    ensures WellPlaced(log, Moved(log, pl, hi, mark))
    ensures Moved(log, pl, hi, mark).upto >= pl.upto
  {
    var from := FirstUnseen(log, pl, hi, mark);
    if from < hi {
      assert from >= pl.upto;
    }
  }

  // A window falls apart at any structured line.
  lemma {:induction false} SliceSplit(log: Log, lo: nat, mid: nat, hi: nat, start: int, next: int, raw: bool)
    requires lo <= mid <= hi <= |log| && (mid < hi ==> log[mid].Structured())
    requires next == start + (mid - lo)
    ensures Entries(log[lo..hi], start, raw)
         == Entries(log[lo..mid], start, raw) + Entries(log[mid..hi], next, raw)
  {
    assert log[lo..hi] == log[lo..mid] + log[mid..hi];
    EntriesSplit(log[lo..mid], log[mid..hi], start, raw);
  }

  lemma {:induction false} Reassociated(a: seq<Line>, b: Line, d: seq<Line>, e: seq<Line>)
    requires e == [b] + d
    ensures a + e == a + [b] + d
  {
  }

  // The window before line q, the entry opened by q, and the window behind that entry.
  lemma {:induction false} WindowPieces(log: Log, lo: nat, q: nat, from: nat, hi: nat, raw: bool)
    returns (a: seq<Line>, b: Line)
    requires lo <= q < from <= hi <= |log| && log[q].Structured()
    requires forall j | q < j < from :: !log[j].Structured()
    requires from < hi ==> log[from].Structured()
    ensures Entries(log[lo..hi], 0, raw) == a + [b] + Entries(log[from..hi], from - lo, raw)
    ensures b.at == log[q].at && b.fields == log[q].Head()
    ensures RawCounts(a + [b]) == from - lo
  {
    a := Entries(log[lo..q], 0, raw);
    SingleEntry(log[q..from], q - lo, raw);
    b := Entries(log[q..from], q - lo, raw)[0];
    Pieces(log, lo, q, from, hi, q - lo, from - lo, raw, a, b);
    PieceCounts(log[lo..q], log[q..from], q - lo, raw, a, b);
  }

  lemma {:induction false} Pieces(
      log: Log, lo: nat, q: nat, from: nat, hi: nat, at: int, next: int, raw: bool, a: seq<Line>, b: Line)
    requires lo <= q < from <= hi <= |log| && log[q].Structured() && (from < hi ==> log[from].Structured())
    requires at == q - lo && next == from - lo
    requires a == Entries(log[lo..q], 0, raw) && [b] == Entries(log[q..from], at, raw)
    ensures Entries(log[lo..hi], 0, raw) == a + [b] + Entries(log[from..hi], next, raw)
  {
    SliceSplit(log, lo, q, hi, 0, at, raw);
    SliceSplit(log, q, from, hi, at, next, raw);
    Reassociated(a, b, Entries(log[from..hi], next, raw), Entries(log[q..hi], at, raw));
  }

  lemma {:induction false} PieceCounts(rs: seq<RawLine>, qs: seq<RawLine>, at: int, raw: bool, a: seq<Line>, b: Line)
    requires a == Entries(rs, 0, raw) && [b] == Entries(qs, at, raw)
    ensures RawCounts(a + [b]) == |rs| + |qs|
  {
    RawCountsConcat(a, [b]);
    EntriesRawCount(rs, 0, raw);
    EntriesRawCount(qs, at, raw);
  }

  lemma {:induction false} ResumedBehind(window: seq<Line>, a: seq<Line>, b: Line, d: seq<Line>, offset: int, req: Request, mark: Marker)
    requires window == a + [b] + d
    requires req.hasCursor && Matches(b, req.cursor, mark)
    requires forall l | l in d :: !Matches(l, req.cursor, mark)
    requires offset == req.cursor.scanned - RawCounts(a + [b])
    ensures Resume(window, req, mark) == Resumption(Shifted(d, offset), offset, false)
  {
    forall j | |a| < j < |window| ensures !Matches(window[j], req.cursor, mark) {
      assert window[j] == d[j - |a| - 1];
    }
    LastMatchIs(window, req.cursor, mark, |a|);
    assert window[..|a| + 1] == a + [b];
    assert window[|a| + 1..] == d;
  }

  lemma {:induction false} Renumbered(rs: seq<RawLine>, start: int, shift: int, next: int, raw: bool)
    requires next == start + shift
    ensures Shifted(Entries(rs, start, raw), shift) == Entries(rs, next, raw)
  {
    EntriesShifted(rs, start, shift, raw);
  }

  lemma {:induction false} ResumeAtLine(log: Log, w: Window, q: nat, from: nat, offset: int, next: int, req: Request, mark: Marker)
    requires w.lo <= q < from <= w.hi <= |log| && log[q].Structured()
    requires forall j | q < j < from :: !log[j].Structured()
    requires from < w.hi ==> log[from].Structured()
    requires req.hasCursor && log[q].at == req.cursor.ts && mark(log[q].Head()) == req.cursor.mark
    requires forall l | l in Entries(log[from..w.hi], from - w.lo, req.raw) :: !Matches(l, req.cursor, mark)
    requires offset == req.cursor.scanned - (from - w.lo) && next == req.cursor.scanned
    ensures Resume(Entries(log[w.lo..w.hi], 0, req.raw), req, mark)
         == Resumption(Entries(log[from..w.hi], next, req.raw), offset, false)
  {
    var a, b := WindowPieces(log, w.lo, q, from, w.hi, req.raw);
    var d := Entries(log[from..w.hi], from - w.lo, req.raw);
    ResumedBehind(Entries(log[w.lo..w.hi], 0, req.raw), a, b, d, offset, req, mark);
    Renumbered(log[from..w.hi], from - w.lo, offset, next, req.raw);
  }

  // No entry behind the last repetition is taken for the cursor's.
  lemma {:induction false} LaterEntriesDiffer(log: Log, pl: Place, hi: nat, req: Request, mark: Marker, start: int)
    requires WellPlaced(log, pl) && pl.p < hi <= |log|
    requires req.cursor == CursorFor(log, pl, mark)
    ensures forall l | l in Entries(log[FirstUnseen(log, pl, hi, mark)..hi], start, req.raw) ::
              !Matches(l, req.cursor, mark)
  {
    var from := FirstUnseen(log, pl, hi, mark);
    var d, heads := Entries(log[from..hi], start, req.raw), Heads(log, from, hi);
    EntriesContents(log, from, hi, start, req.raw);
    forall i | 0 <= i < |d| ensures !Matches(d[i], req.cursor, mark) {
      assert Contents(d)[i] == ContentAt(log, heads[i]);
      HeadsAre(log, from, hi, heads[i]);
    }
  }

  // Resuming finds the cursor's line, or its last repetition, and leaves the entries behind it,
  // numbered from the cursor's count.
  lemma {:induction false} ResumeAt(log: Log, w: Window, pl: Place, req: Request, mark: Marker)
    requires WellPlaced(log, pl) && Sees(log, w, pl)
    requires req.hasCursor && req.cursor == CursorFor(log, pl, mark)
    ensures var from := FirstUnseen(log, pl, w.hi, mark);
            Resume(Entries(log[w.lo..w.hi], 0, req.raw), req, mark)
            == Resumption(Entries(log[from..w.hi], pl.scanned, req.raw), pl.scanned - (from - w.lo), false)
  {
    var from := FirstUnseen(log, pl, w.hi, mark);
    var offset := pl.scanned - (from - w.lo);
    LaterEntriesDiffer(log, pl, w.hi, req, mark, from - w.lo);
    ResumeAtLine(log, w, LastRepeat(log, pl.p, w.hi, mark), from, offset, pl.scanned, req, mark);
  }

  // The cursor a poll mints names the last entry it delivered.
  lemma {:induction false} CursorMoves(log: Log, w: Window, pl: Place, req: Request, mark: Marker)
    requires Stamped(log) && WellPlaced(log, pl) && Sees(log, w, pl)
    requires req.hasCursor && req.cursor == CursorFor(log, pl, mark)
    ensures var window := Entries(log[w.lo..w.hi], 0, req.raw);
            NextCursor(window, w.hi - w.lo, Resume(window, req, mark), req, mark)
            == CursorFor(log, Moved(log, pl, w.hi, mark), mark)
  {
    ResumeAt(log, w, pl, req, mark);
    var from := FirstUnseen(log, pl, w.hi, mark);
    var d := Entries(log[from..w.hi], pl.scanned, req.raw);
    if from < w.hi {
      LastEntry(log, from, w.hi, pl.scanned, req.raw);
      assert LastStamped(d) == Some(d[|d| - 1]);
    }
  }

  lemma {:induction false} LastEntry(log: Log, from: nat, hi: nat, start: int, raw: bool)
    requires from < hi <= |log| && log[from].Structured()
    ensures var d, last := Entries(log[from..hi], start, raw), LastStructured(log, from, hi);
            d[|d| - 1].at == log[last].at && d[|d| - 1].fields == log[last].Head()
  {
    var last := LastStructured(log, from, hi);
    LastEntryAt(log, from, last, hi, start, start + last - from, raw);
  }

  lemma {:induction false} LastEntryAt(log: Log, from: nat, last: nat, hi: nat, start: int, next: int, raw: bool)
    requires from <= last < hi <= |log| && log[last].Structured() && next == start + (last - from)
    requires forall j | last < j < hi :: !log[j].Structured()
    ensures var d := Entries(log[from..hi], start, raw);
            d != [] && d[|d| - 1].at == log[last].at && d[|d| - 1].fields == log[last].Head()
  {
    SliceSplit(log, from, last, hi, start, next, raw);
    SingleEntry(log[last..hi], next, raw);
  }
}
