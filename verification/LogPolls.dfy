/**
 * From pages to streams: what a client that keeps polling with each page's cursor receives.
 */
module LogPolls {
  import opened Basics
  import opened Decimal
  import opened LogScan
  import opened LogCursor
  import opened LogPage
  import opened LogTail
  import opened LogStream

  // A log whose stamps and length fit the cursor's wire form.
  ghost predicate Encodable(log: Log) {
    Stamped(log) && |log| <= MAX_INT64
  }

  // A page built from a window of the log.
  ghost predicate Shows(page: Page, log: Log, w: Window, req: Request, mark: Marker)
    requires w.lo <= w.hi <= |log|
  {
    Follows(page, Entries(log[w.lo..w.hi], 0, req.raw), w.hi - w.lo, req, mark)
  }

  // The pages a client gets when it sends every page's cursor back with the next poll.
  ghost predicate Polling(log: Log, ws: seq<Window>, wire: string, pages: seq<Page>, v: View, mark: Marker) {
    && |pages| == |ws|
    && (ws != [] ==>
          var w, c := ws[0], DecodeCursor(wire);
          && w.lo <= w.hi <= |log|
          && c.Ok?
          && Shows(pages[0], log, w, Asking(c.value, v), mark)
          && Polling(log, ws[1..], pages[0].nextCursor, pages[1..], v, mark))
  }

  function PageLines(pages: seq<Page>): seq<Line> {
    if pages == [] then [] else pages[0].lines + PageLines(pages[1..])
  }

  lemma {:induction false} PlaceOnTheWire(log: Log, pl: Place, mark: Marker)
    requires Encodable(log) && WellPlaced(log, pl)
    ensures DecodeCursor(Encode(CursorFor(log, pl, mark))) == Ok(CursorFor(log, pl, mark))
  {
    CursorRoundTrip(CursorFor(log, pl, mark));
  }

  function Asking(c: Cursor, v: View): Request {
    Request(c, true, v.limit, v.keep, v.raw)
  }

  lemma {:induction false} ListsNewest(p: Page, unseen: seq<Line>, v: View, req: Request, r: Resumption)
    requires Lists(p, r, req) && r.unseen == unseen && req.keep == v.keep && req.limit == v.limit
    ensures p.lines == Newest(Kept(unseen, v.keep), Limit(v.limit)) && |Kept(unseen, v.keep)| == |p.lines| + p.dropped
  {
  }

  // One poll: the page lists what is new and counts it,
  lemma {:induction false} PollLists(log: Log, w: Window, pl: Place, page: Page, v: View, mark: Marker)
    requires WellPlaced(log, pl) && Sees(log, w, pl)
    requires Shows(page, log, w, Asking(CursorFor(log, pl, mark), v), mark)
    ensures var from := FirstUnseen(log, pl, w.hi, mark);
            var hits := Kept(Entries(log[from..w.hi], pl.scanned, v.raw), v.keep);
            && !page.reset
            && page.lines == Newest(hits, Limit(v.limit)) && |hits| == |page.lines| + page.dropped
            && page.scanned == w.hi - from
  {
    ResumeAt(log, w, pl, Asking(CursorFor(log, pl, mark), v), mark);
    var from := FirstUnseen(log, pl, w.hi, mark);
    ListsNewest(page, Entries(log[from..w.hi], pl.scanned, v.raw), v, Asking(CursorFor(log, pl, mark), v),
                Resume(Entries(log[w.lo..w.hi], 0, v.raw), Asking(CursorFor(log, pl, mark), v), mark));
    EntriesRawCount(log[FirstUnseen(log, pl, w.hi, mark)..w.hi], pl.scanned, v.raw);
  }

  // and it carries the next place.
  lemma {:induction false} PollCarries(log: Log, w: Window, pl: Place, page: Page, v: View, mark: Marker)
    requires Stamped(log) && WellPlaced(log, pl) && Sees(log, w, pl)
    requires Shows(page, log, w, Asking(CursorFor(log, pl, mark), v), mark)
    ensures page.nextCursor == Encode(CursorFor(log, Moved(log, pl, w.hi, mark), mark))
  {
    CursorMoves(log, w, pl, Asking(CursorFor(log, pl, mark), v), mark);
  }

  // A poll that finds nothing new delivers nothing and hands the cursor back unchanged; and the
  // count a page adds to the cursor is the count it reports.
  lemma {:induction false} IdlePoll(log: Log, w: Window, pl: Place, page: Page, v: View, mark: Marker)
    requires Encodable(log) && WellPlaced(log, pl) && Sees(log, w, pl)
    requires Shows(page, log, w, Asking(CursorFor(log, pl, mark), v), mark)
    ensures Moved(log, pl, w.hi, mark).scanned == pl.scanned + page.scanned
    ensures page.scanned == 0 <==> Moved(log, pl, w.hi, mark) == pl
    ensures page.scanned == 0 ==>
              page.lines == [] && page.nextCursor == Encode(CursorFor(log, pl, mark))
  {
    PollLists(log, w, pl, page, v, mark);
    PollCarries(log, w, pl, page, v, mark);
  }

  // What the polls' pages list, whatever the filter and the limit: of each poll's new entries that the
  // filter keeps, the newest.
  function Shown(log: Log, pl: Place, ws: seq<Window>, v: View, mark: Marker): seq<Line>
    requires WellPlaced(log, pl) && AllSee(log, pl, ws, mark)
    decreases |ws|
  {
    if ws == [] then []
    else
      var hi := ws[0].hi;
      MovedWellPlaced(log, pl, hi, mark);
      Newest(Kept(Entries(log[FirstUnseen(log, pl, hi, mark)..hi], pl.scanned, v.raw), v.keep), Limit(v.limit))
      + Shown(log, Moved(log, pl, hi, mark), ws[1..], v, mark)
  }

  function Dropped(pages: seq<Page>): nat {
    if pages == [] then 0 else pages[0].dropped + Dropped(pages[1..])
  }

  lemma {:induction false} OnePage(log: Log, w: Window, pl: Place, page: Page, v: View, mark: Marker, d: seq<Line>)
    requires WellPlaced(log, pl) && Sees(log, w, pl)
    requires Shows(page, log, w, Asking(CursorFor(log, pl, mark), v), mark)
    requires d == Entries(log[FirstUnseen(log, pl, w.hi, mark)..w.hi], pl.scanned, v.raw)
    ensures !page.reset && page.lines == Newest(Kept(d, v.keep), Limit(v.limit))
    ensures |page.lines| + page.dropped == |Kept(d, v.keep)| && (page.dropped == 0 ==> page.lines == Kept(d, v.keep))
  {
    PollLists(log, w, pl, page, v, mark);
  }

  lemma {:induction false} ShiftedRise(lines: seq<Line>, offset: int, lo: int)
    requires NumbersRise(lines, lo)
    ensures NumbersRise(Shifted(lines, offset), lo + offset)
  {
  }

  // What a page has unseen stands in the order of its numbers.
  lemma {:induction false} UnseenRise(rs: seq<RawLine>, req: Request, mark: Marker) returns (lo: int)
    ensures NumbersRise(Resume(Entries(rs, 0, req.raw), req, mark).unseen, lo)
  {
    EntriesNumbered(rs, 0, req.raw);
    lo := ResumedRise(Entries(rs, 0, req.raw), req, mark);
  }

  lemma {:induction false} ResumedRise(window: seq<Line>, req: Request, mark: Marker) returns (lo: int)
    requires NumbersRise(window, 0)
    ensures NumbersRise(Resume(window, req, mark).unseen, lo)
  {
    lo := 0;
    if req.hasCursor && LastMatch(window, req.cursor, mark).Some? {
      var rest := window[LastMatch(window, req.cursor, mark).value + 1..];
      lo := Resume(window, req, mark).offset;
      assert NumbersRise(rest, 0);
      ShiftedRise(rest, lo, 0);
    }
  }

  // What any page lists: of the unseen entries the filter keeps as many as the limit admits, in the order of
  // their numbers, and none it leaves out has a higher number than one it lists.
  lemma {:induction false} PageKeepsNewest(p: Page, rs: seq<RawLine>, req: Request, mark: Marker)
    requires PageOf(p, rs, req, mark)
    ensures var unseen := Resume(Entries(rs, 0, req.raw), req, mark).unseen;
      && (forall l | l in p.lines :: l in unseen && req.keep(l))
      && (forall i, j | 0 <= i < j < |p.lines| :: p.lines[i].pos < p.lines[j].pos)
      && (forall l, m | l in unseen && req.keep(l) && l !in p.lines && m in p.lines :: l.pos < m.pos)
      && |p.lines| <= Limit(req.limit) && (p.dropped > 0 ==> |p.lines| == Limit(req.limit))
      && (p.dropped == 0 ==> forall l | l in unseen && req.keep(l) :: l in p.lines)
  {
    var unseen := Resume(Entries(rs, 0, req.raw), req, mark).unseen;
    var hits := Kept(unseen, req.keep);
    var lo := UnseenRise(rs, req, mark);
    KeptRise(unseen, req.keep, lo);
    forall l ensures l in hits <==> l in unseen && req.keep(l) {
      KeptAre(unseen, req.keep, l);
    }
    LastOnes(hits, p.lines, lo);
  }

  // The last lines of some with rising numbers: whatever is left out comes before them.
  lemma {:induction false} LastOnes(hits: seq<Line>, lines: seq<Line>, lo: int)
    requires NumbersRise(hits, lo) && |lines| <= |hits| && lines == hits[|hits| - |lines|..]
    ensures NumbersRise(lines, lo) && forall l | l in lines :: l in hits
    ensures forall l, m | l in hits && l !in lines && m in lines :: l.pos < m.pos
    ensures |lines| == |hits| ==> lines == hits
  {
    var k := |hits| - |lines|;
    assert hits == hits[..k] + lines;
    forall l, m | l in hits && l !in lines && m in lines ensures l.pos < m.pos {
      Ahead(hits, hits[..k], lines, lo, l, m);
    }
  }

  lemma {:induction false} Ahead(hits: seq<Line>, front: seq<Line>, lines: seq<Line>, lo: int, l: Line, m: Line)
    requires NumbersRise(hits, lo) && hits == front + lines && l in front && m in lines
    ensures l.pos < m.pos
  {
    var i :| 0 <= i < |front| && front[i] == l;
    var j :| 0 <= j < |lines| && lines[j] == m;
    assert hits[i] == l && hits[|front| + j] == m;
  }

  // All the polls, for every filter and limit: the pages list each poll's newest kept entries, what they
  // drop is what the filtered stream has more, and they are the filtered stream exactly when they drop
  // nothing.
  lemma {:induction false} PagesAreTheStream(
      log: Log, pl: Place, ws: seq<Window>, pages: seq<Page>, v: View, mark: Marker)
    requires Encodable(log) && WellPlaced(log, pl) && AllSee(log, pl, ws, mark)
    requires Polling(log, ws, Encode(CursorFor(log, pl, mark)), pages, v, mark)
    ensures forall p | p in pages :: !p.reset
    ensures PageLines(pages) == Shown(log, pl, ws, v, mark)
    ensures |PageLines(pages)| + Dropped(pages) == |Kept(Stream(log, pl, ws, v.raw, mark), v.keep)|
    ensures Dropped(pages) == 0 <==> PageLines(pages) == Kept(Stream(log, pl, ws, v.raw, mark), v.keep)
    decreases |ws|
  {
    if ws != [] {
      var hi, first, rest := ws[0].hi, pages[0], pages[1..];
      var next := Moved(log, pl, hi, mark);
      PlaceOnTheWire(log, pl, mark);
      MovedWellPlaced(log, pl, hi, mark);
      PollCarries(log, ws[0], pl, first, v, mark);
      PagesAreTheStream(log, next, ws[1..], rest, v, mark);
      var d := Entries(log[FirstUnseen(log, pl, hi, mark)..hi], pl.scanned, v.raw);
      OnePage(log, ws[0], pl, first, v, mark, d);
      PagesJoin(pages, first, rest, d, Stream(log, next, ws[1..], v.raw, mark), v.keep);
    }
  }

  lemma {:induction false} PagesJoin(pages: seq<Page>, first: Page, rest: seq<Page>, d: seq<Line>, stream: seq<Line>, keep: Line -> bool)
    requires pages != [] && first == pages[0] && rest == pages[1..]
    requires !first.reset && forall p | p in rest :: !p.reset
    requires |first.lines| + first.dropped == |Kept(d, keep)| && (first.dropped == 0 ==> first.lines == Kept(d, keep))
    requires |PageLines(rest)| + Dropped(rest) == |Kept(stream, keep)|
    requires Dropped(rest) == 0 ==> PageLines(rest) == Kept(stream, keep)
    ensures forall p | p in pages :: !p.reset
    ensures |PageLines(pages)| + Dropped(pages) == |Kept(d + stream, keep)|
    ensures Dropped(pages) == 0 <==> PageLines(pages) == Kept(d + stream, keep)
  {
    assert pages == [first] + rest;
    KeptConcat(d, stream, keep);
  }

  // On any series of pages, whatever the filter, the limit and the lines repeated, numbers rise strictly:
  // no line comes twice.
  lemma {:induction false} ShownRise(log: Log, pl: Place, ws: seq<Window>, v: View, mark: Marker)
    requires WellPlaced(log, pl) && AllSee(log, pl, ws, mark)
    ensures NumbersRise(Shown(log, pl, ws, v, mark), pl.scanned)
    decreases |ws|
  {
    if ws != [] {
      var hi := ws[0].hi;
      var from, next := FirstUnseen(log, pl, hi, mark), Moved(log, pl, hi, mark);
      var d := Entries(log[from..hi], pl.scanned, v.raw);
      MovedWellPlaced(log, pl, hi, mark);
      EntriesNumbered(log[from..hi], pl.scanned, v.raw);
      KeptRise(d, v.keep, pl.scanned);
      NewestRise(Kept(d, v.keep), Limit(v.limit), pl.scanned);
      ShownRise(log, next, ws[1..], v, mark);
      NumbersConcat(Newest(Kept(d, v.keep), Limit(v.limit)), Shown(log, next, ws[1..], v, mark), pl.scanned, next.scanned);
    }
  }

  lemma {:induction false} NoLineTwice(log: Log, pl: Place, ws: seq<Window>, pages: seq<Page>, v: View, mark: Marker)
    requires Encodable(log) && WellPlaced(log, pl) && AllSee(log, pl, ws, mark)
    requires Polling(log, ws, Encode(CursorFor(log, pl, mark)), pages, v, mark)
    ensures NumbersRise(PageLines(pages), pl.scanned)
  {
    PagesAreTheStream(log, pl, ws, pages, v, mark);
    ShownRise(log, pl, ws, v, mark);
  }

  predicate KeepAll(l: Line) { true }

  lemma {:induction false} KeptAll(lines: seq<Line>)
    ensures Kept(lines, KeepAll) == lines
  {
    if lines != [] {
      var n := |lines| - 1;
      KeptAll(lines[..n]);
      assert KeepAll(lines[n]);
      assert Kept(lines, KeepAll) == Kept(lines[..n], KeepAll) + [lines[n]];
    }
  }

  // The promise of the cursor: without repetitions, following it lists every new entry the filter keeps
  // once and in order, but for the ones a page says it dropped.
  lemma {:induction false} TailingIsExactlyOnce(log: Log, pl: Place, ws: seq<Window>, pages: seq<Page>, v: View, mark: Marker)
    requires Encodable(log) && WellPlaced(log, pl) && AllSee(log, pl, ws, mark) && NoRepeats(log, pl, ws, mark)
    requires Polling(log, ws, Encode(CursorFor(log, pl, mark)), pages, v, mark)
    ensures pl.upto <= ReadUpTo(pl.upto, ws) <= |log|
    ensures var entries, places := Stream(log, pl, ws, v.raw, mark), Heads(log, pl.upto, ReadUpTo(pl.upto, ws));
            && Contents(entries) == ContentsAt(log, places) && NumbersRise(entries, pl.scanned)
            && |PageLines(pages)| + Dropped(pages) == |Kept(entries, v.keep)|
            && (Dropped(pages) == 0 <==> PageLines(pages) == Kept(entries, v.keep))
            && (Dropped(pages) == 0 && v.keep == KeepAll ==> Contents(PageLines(pages)) == ContentsAt(log, places))
    ensures NumbersRise(PageLines(pages), pl.scanned)
  {
    ReadWithinLog(log, pl, pl.upto, ws, mark);
    PagesAreTheStream(log, pl, ws, pages, v, mark);
    ShownRise(log, pl, ws, v, mark);
    KeptAll(Stream(log, pl, ws, v.raw, mark));
    StreamContents(log, pl, ws, v.raw, mark);
    StreamNumbered(log, pl, ws, v.raw, mark);
    ExactlyOnce(log, pl, ws, mark);
  }

  // ---- the first page --------------------------------------------------------------------

  lemma {:induction false} SeedCursor(log: Log, w: Window, p: nat, raw: bool, mark: Marker)
    requires Stamped(log) && w.lo <= p < w.hi <= |log| && log[p].Structured()
    ensures var window := Entries(log[w.lo..w.hi], 0, raw);
            Advanced(NO_CURSOR, window, window, w.hi - w.lo, false, mark)
            == CursorFor(log, Place(LastStructured(log, p, w.hi), w.hi, w.hi - w.lo), mark)
  {
    var last := LastStructured(log, p, w.hi);
    LastEntryAt(log, w.lo, last, w.hi, 0, last - w.lo, raw);
    StampedLast(Entries(log[w.lo..w.hi], 0, raw));
  }

  lemma {:induction false} StampedLast(lines: seq<Line>)
    requires lines != [] && lines[|lines| - 1].at != ZERO_TIME
    ensures LastStamped(lines) == Some(lines[|lines| - 1])
  {
  }

  // A page built without a cursor delivers its whole window and leaves the client at the
  // window's last structured line.
  lemma {:induction false} SeedPage(log: Log, w: Window, p: nat, page: Page, v: View, mark: Marker)
    requires Stamped(log) && w.lo <= p < w.hi <= |log| && log[p].Structured()
    requires Shows(page, log, w, Request(NO_CURSOR, false, v.limit, v.keep, v.raw), mark)
    ensures var pl := Place(LastStructured(log, p, w.hi), w.hi, w.hi - w.lo);
            WellPlaced(log, pl) && page.nextCursor == Encode(CursorFor(log, pl, mark))
    ensures !page.reset && page.lines == Newest(Kept(Entries(log[w.lo..w.hi], 0, v.raw), v.keep), Limit(v.limit))
  {
    SeedCursor(log, w, p, v.raw, mark);
    var req, window := Request(NO_CURSOR, false, v.limit, v.keep, v.raw), Entries(log[w.lo..w.hi], 0, v.raw);
    ListsNewest(page, window, v, req, Resume(window, req, mark));
  }

  // ---- the rewind ------------------------------------------------------------------------

  ghost predicate StampsOrdered(log: Log) {
    forall i, j | 0 <= i < j < |log| :: log[i].at <= log[j].at
  }

  // The first of the n lines written so far that is not before t: where `since=t` starts.
  function SinceStart(log: Log, n: nat, t: Instant): (lo: nat)
    requires n <= |log|
    ensures lo <= n
    ensures forall j | 0 <= j < lo :: log[j].at < t
    ensures lo < n ==> log[lo].at >= t
  {
    if n == 0 then 0
    else
      var lo := SinceStart(log, n - 1, t);
      if lo < n - 1 || log[n - 1].at >= t then lo else n
  }

  // A window fetched with the cursor's rewound time is everything of the last second before the cursor's line
  // and since, and so it contains that line.
  lemma {:induction false} RewindReachesCursor(log: Log, n: nat, pl: Place, mark: Marker)
    requires WellPlaced(log, pl) && StampsOrdered(log) && pl.p < n <= |log|
    ensures var t := Since(CursorFor(log, pl, mark));
            var w := Window(SinceStart(log, n, t), n);
            && t == log[pl.p].at - 1_000_000_000 && Sees(log, w, pl)
            && forall j | 0 <= j < n :: log[j].at >= t <==> w.lo <= j
  {
  }

  // The windows a client fetches when it sends each cursor's rewound time and the log has grown to these
  // lengths.
  function Fetched(log: Log, pl: Place, ends: seq<nat>, mark: Marker): (ws: seq<Window>)
    requires WellPlaced(log, pl) && Growing(log, pl, ends)
    ensures |ws| == |ends| && forall i | 0 <= i < |ws| :: ws[i].hi == ends[i]
    decreases |ends|
  {
    if ends == [] then []
    else
      GrowingOn(log, pl, ends, mark);
      [Window(SinceStart(log, ends[0], Since(CursorFor(log, pl, mark))), ends[0])]
      + Fetched(log, Moved(log, pl, ends[0], mark), ends[1..], mark)
  }

  ghost predicate Growing(log: Log, pl: Place, ends: seq<nat>) {
    && (forall i | 0 <= i < |ends| :: pl.upto <= ends[i] <= |log|)
    && forall i, j | 0 <= i < j < |ends| :: ends[i] <= ends[j]
  }

  lemma {:induction false} GrowingOn(log: Log, pl: Place, ends: seq<nat>, mark: Marker)
    requires WellPlaced(log, pl) && Growing(log, pl, ends) && ends != []
    ensures WellPlaced(log, Moved(log, pl, ends[0], mark)) && Growing(log, Moved(log, pl, ends[0], mark), ends[1..])
  {
    MovedWellPlaced(log, pl, ends[0], mark);
    assert Moved(log, pl, ends[0], mark).upto <= ends[0];
  }

  // On a log with ordered stamps that only grows, every fetched window contains the line its cursor names,
  // whatever was delivered before.
  lemma {:induction false} FetchedSee(log: Log, pl: Place, ends: seq<nat>, mark: Marker)
    requires WellPlaced(log, pl) && Growing(log, pl, ends) && StampsOrdered(log)
    ensures AllSee(log, pl, Fetched(log, pl, ends, mark), mark)
    decreases |ends|
  {
    if ends != [] {
      GrowingOn(log, pl, ends, mark);
      RewindReachesCursor(log, ends[0], pl, mark);
      var ws, next := Fetched(log, pl, ends, mark), Moved(log, pl, ends[0], mark);
      assert ws[1..] == Fetched(log, next, ends[1..], mark);
      FetchedSee(log, next, ends[1..], mark);
    }
  }

  lemma {:induction false} ReadToTheLast(from: nat, ws: seq<Window>)
    requires ws != [] && EndsGrow(ws) && from <= ws[|ws| - 1].hi
    ensures ReadUpTo(from, ws) == ws[|ws| - 1].hi
  {
    if |ws| > 1 { ReadToTheLast(from, ws[1..]); }
  }

  // Following a growing log by rewinding: nothing comes twice, and the polls deliver every line up to the
  // log's last length, each once and in order, exactly when no window repeats its cursor's line.
  lemma {:induction false} RewindingTails(log: Log, pl: Place, ends: seq<nat>, pages: seq<Page>, v: View, mark: Marker)
    requires Encodable(log) && StampsOrdered(log) && WellPlaced(log, pl) && Growing(log, pl, ends) && ends != []
    requires Polling(log, Fetched(log, pl, ends, mark), Encode(CursorFor(log, pl, mark)), pages, v, mark)
    ensures AllSee(log, pl, Fetched(log, pl, ends, mark), mark) && EndsGrow(Fetched(log, pl, ends, mark))
    ensures NumbersRise(PageLines(pages), pl.scanned) && forall p | p in pages :: !p.reset
    ensures Delivered(log, pl, Fetched(log, pl, ends, mark), mark) == Heads(log, pl.upto, ends[|ends| - 1])
      <==> NoRepeats(log, pl, Fetched(log, pl, ends, mark), mark)
  {
    var ws := Fetched(log, pl, ends, mark);
    FetchedSee(log, pl, ends, mark);
    PagesAreTheStream(log, pl, ws, pages, v, mark);
    NoLineTwice(log, pl, ws, pages, v, mark);
    CompleteIffNoRepeats(log, pl, ws, mark);
    ReadToTheLast(pl.upto, ws);
  }

  // ---- where the promise ends ------------------------------------------------------------

  function Repeated(at: Instant, msg: string): RawLine {
    RawLine(msg, at, msg, Some(Fields("", "INFO", "a.go:1", "rpc", msg)))
  }

  // Three lines with one stamp, the first and the last alike: the poll that reads all three takes
  // the last for the cursor's line, and the one between them is never delivered.
  lemma {:induction false} RepeatSkipsForward(mark: Marker)
    requires mark(Repeated(0, "x").Head()) != mark(Repeated(0, "y").Head())
    ensures var log := [Repeated(0, "x"), Repeated(0, "y"), Repeated(0, "x")];
            var pl := Place(0, 1, 1);
            && WellPlaced(log, pl)
            && AllSee(log, pl, [Window(0, 3)], mark)
            && Delivered(log, pl, [Window(0, 3)], mark) == []
            && Heads(log, 1, 3) == [1, 2]
  {
    var log, pl := [Repeated(0, "x"), Repeated(0, "y"), Repeated(0, "x")], Place(0, 1, 1);
    assert LastRepeat(log, 0, 3, mark) == 2;
    assert FirstUnseen(log, pl, 3, mark) == 3;
    assert Heads(log, 1, 2) == [1];
  }
}
