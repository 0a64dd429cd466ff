/** Turning one raw window into a page and the cursor that continues it (internal/logs/page.go). */
module LogPage {
  import opened Basics
  import opened Decimal
  import opened LogScan
  import opened LogCursor

  const DEFAULT_LIMIT: nat := 2000
  const MAX_LINES: nat := 5000

  datatype Request = Request(cursor: Cursor, hasCursor: bool, limit: int, keep: Line -> bool, raw: bool)

  datatype Page = Page(
    lines: seq<Line>,
    nextCursor: string,
    reset: bool,
    resetReason: string,
    scanned: nat,
    matched: nat,
    dropped: nat,
    levels: map<string, nat>,
    services: map<string, nat>
  )

  function Limit(requested: int): (limit: nat)
    ensures 1 <= limit <= MAX_LINES
    ensures 1 <= requested <= MAX_LINES ==> limit == requested
    ensures requested <= 0 ==> limit == DEFAULT_LIMIT
    ensures requested > MAX_LINES ==> limit == MAX_LINES
  {
    if requested <= 0 then DEFAULT_LIMIT else if requested > MAX_LINES then MAX_LINES else requested
  }

  // ---- the part of the window not delivered yet ------------------------------------------

  datatype Resumption = Resumption(unseen: seq<Line>, offset: int, reset: bool)

  function Resume(window: seq<Line>, req: Request, mark: Marker): Resumption {
    if !req.hasCursor then Resumption(window, 0, false)
    else
      match LastMatch(window, req.cursor, mark)
      case None => Resumption(window, 0, true)
      case Some(i) =>
        var offset := req.cursor.scanned - RawCounts(window[..i + 1]);
        Resumption(Shifted(window[i + 1..], offset), offset, false)
  }

  // A stream is reset exactly when it comes with a cursor that no entry of the window matches.
  lemma {:induction false} ResetIff(window: seq<Line>, req: Request, mark: Marker)
    ensures Resume(window, req, mark).reset
      <==> req.hasCursor && forall l | l in window :: l.at != req.cursor.ts || mark(l.fields) != req.cursor.mark
  {
    if req.hasCursor { NoMatchIff(window, req.cursor, mark); }
  }

  lemma {:induction false} NoMatchIff(window: seq<Line>, c: Cursor, mark: Marker)
    ensures LastMatch(window, c, mark).None? <==> forall l | l in window :: !Matches(l, c, mark)
  {
    if window != [] {
      var n := |window| - 1;
      NoMatchIff(window[..n], c, mark);
      assert window == window[..n] + [window[n]];
    }
  }

  function ResetReason(window: seq<Line>, c: Cursor): string {
    if window != [] && window[0].at != ZERO_TIME && window[0].at > c.ts then "log_rotated"
    else "container_restarted"
  }

  // With entries in the order of their stamps, the log is said to have rotated exactly when all that is left of
  // it is later than the cursor.
  lemma {:induction false} RotatedIff(window: seq<Line>, c: Cursor)
    requires forall i, j | 0 <= i < j < |window| :: window[i].at <= window[j].at
    requires forall l | l in window :: l.at != ZERO_TIME
    ensures ResetReason(window, c) == "log_rotated" <==> window != [] && forall l | l in window :: l.at > c.ts
    ensures ResetReason(window, c) == "container_restarted" <==> window == [] || exists l | l in window :: l.at <= c.ts
  {
    if window != [] && ResetReason(window, c) == "log_rotated" {
      forall l | l in window ensures l.at > c.ts {
        var i :| 0 <= i < |window| && window[i] == l;
        if i > 0 { assert window[0].at <= window[i].at; }
      }
    }
    if window != [] { assert window[0] in window; }
  }

  // ---- facets, filter and limit ----------------------------------------------------------

  function Kept(lines: seq<Line>, keep: Line -> bool): seq<Line> {
    if lines == [] then []
    else
      var n := |lines| - 1;
      Kept(lines[..n], keep) + if keep(lines[n]) then [lines[n]] else []
  }

  lemma {:induction false} KeptConcat(a: seq<Line>, b: seq<Line>, keep: Line -> bool)
    ensures Kept(a + b, keep) == Kept(a, keep) + Kept(b, keep)
  {
    if b == [] {
      assert a + b == a;
    } else {
      assert (a + b)[..|a + b| - 1] == a + b[..|b| - 1];
      KeptConcat(a, b[..|b| - 1], keep);
    }
  }

  // It keeps just the lines the filter keeps, each as often as it occurs.
  lemma {:induction false} KeptAre(lines: seq<Line>, keep: Line -> bool, l: Line)
    ensures multiset(Kept(lines, keep))[l] == if keep(l) then multiset(lines)[l] else 0
    ensures l in Kept(lines, keep) <==> l in lines && keep(l)
  {
    if lines != [] {
      var n := |lines| - 1;
      KeptAre(lines[..n], keep, l);
      assert lines == lines[..n] + [lines[n]];
    }
  }

  function Newest(lines: seq<Line>, limit: nat): seq<Line> {
    if |lines| > limit then lines[|lines| - limit..] else lines
  }

  // The last lines, and as many as the limit admits.
  lemma {:induction false} NewestAre(lines: seq<Line>, limit: nat)
    ensures |Newest(lines, limit)| == if |lines| <= limit then |lines| else limit
    ensures forall k | 0 <= k < |Newest(lines, limit)| :: Newest(lines, limit)[k] == lines[|lines| - |Newest(lines, limit)| + k]
  {
  }

  function LevelTag(l: Line): string {
    if l.fields.level != "" then l.fields.level else "RAW"
  }

  function LevelLabels(lines: seq<Line>): seq<string> {
    if lines == [] then []
    else
      var n := |lines| - 1;
      LevelLabels(lines[..n]) + [LevelTag(lines[n])]
  }

  function ServiceLabels(lines: seq<Line>): seq<string> {
    if lines == [] then []
    else
      var n := |lines| - 1;
      ServiceLabels(lines[..n]) + if lines[n].fields.service != "" then [lines[n].fields.service] else []
  }

  // The facet map of a list of labels.
  function Tally(labels: seq<string>): map<string, nat> {
    if labels == [] then map[]
    else
      var n := |labels| - 1;
      var facets := Tally(labels[..n]);
      Incremented(facets, labels[n])
  }

  function Incremented(facets: map<string, nat>, tag: string): map<string, nat> {
    facets[tag := (if tag in facets then facets[tag] else 0) + 1]
  }

  // It holds every label that occurs, with how often it occurs.
  lemma {:induction false} TallyCounts(labels: seq<string>, k: string)
    ensures k in Tally(labels) <==> k in labels
    ensures k in labels ==> Tally(labels)[k] == multiset(labels)[k]
  {
    if labels != [] {
      var n := |labels| - 1;
      TallyCounts(labels[..n], k);
      assert labels == labels[..n] + [labels[n]];
    }
  }

  function CountLevel(lines: seq<Line>, level: string): nat {
    if lines == [] then 0
    else CountLevel(lines[..|lines| - 1], level) + if lines[|lines| - 1].fields.level == level then 1 else 0
  }

  function CountService(lines: seq<Line>, service: string): nat {
    if lines == [] then 0
    else CountService(lines[..|lines| - 1], service) + if lines[|lines| - 1].fields.service == service then 1 else 0
  }

  // The level facet of a tag is the number of lines with that level, those without one counted as "RAW",
  lemma {:induction false} LevelFacets(lines: seq<Line>, tag: string)
    ensures (if tag in Tally(LevelLabels(lines)) then Tally(LevelLabels(lines))[tag] else 0)
      == if tag == "" then 0
         else if tag == "RAW" then CountLevel(lines, "RAW") + CountLevel(lines, "")
         else CountLevel(lines, tag)
  {
    if lines != [] {
      var n := |lines| - 1;
      LevelFacets(lines[..n], tag);
      var labels := LevelLabels(lines);
      assert labels[..|labels| - 1] == LevelLabels(lines[..n]);
    }
  }

  // and the facet of a service the number of lines that name it.
  lemma {:induction false} ServiceFacets(lines: seq<Line>, service: string)
    ensures (if service in Tally(ServiceLabels(lines)) then Tally(ServiceLabels(lines))[service] else 0)
      == if service == "" then 0 else CountService(lines, service)
  {
    if lines != [] {
      var n := |lines| - 1;
      ServiceFacets(lines[..n], service);
      var labels := ServiceLabels(lines);
      if lines[n].fields.service != "" {
        assert labels[..|labels| - 1] == ServiceLabels(lines[..n]);
      } else {
        assert labels == ServiceLabels(lines[..n]);
      }
    }
  }

  // ---- the next cursor -------------------------------------------------------------------

  function LastStamped(lines: seq<Line>): (r: Option<Line>)
    ensures r.Some? ==> r.value in lines && r.value.at != ZERO_TIME
    ensures r.None? <==> forall l | l in lines :: l.at == ZERO_TIME
  {
    if lines == [] then None
    else
      var n := |lines| - 1;
      if lines[n].at != ZERO_TIME then Some(lines[n]) else LastStamped(lines[..n])
  }

  method FindLastStamped(lines: seq<Line>) returns (r: Option<Line>)
    ensures r == LastStamped(lines)
  {
    var i := |lines| - 1;
    assert lines[..|lines|] == lines;
    while i >= 0
      invariant -1 <= i < |lines|
      invariant LastStamped(lines) == LastStamped(lines[..i + 1])
    {
      assert lines[..i + 1][..i] == lines[..i];
      if lines[i].at != ZERO_TIME {
        return Some(lines[i]);
      }
      i := i - 1;
    }
    return None;
  }

  function CursorAt(l: Line, scanned: int, mark: Marker): Cursor {
    Cursor(l.at, mark(l.fields), scanned)
  }

  // With no new stamped entry the previous cursor is kept as it is.
  function Advanced(prev: Cursor, window: seq<Line>, unseen: seq<Line>, scanned: int, keepPrev: bool, mark: Marker)
    : Cursor
  {
    match LastStamped(unseen)
    case Some(l) => CursorAt(l, scanned, mark)
    case None =>
      if keepPrev then prev
      else match LastStamped(window)
           case Some(l) => CursorAt(l, scanned, mark)
           case None => prev
  }

  method Advance(prev: Cursor, window: seq<Line>, unseen: seq<Line>, offset: int, rawTotal: nat, keepPrev: bool,
                 mark: Marker)
    returns (c: Cursor)
    ensures c == Advanced(prev, window, unseen, offset + rawTotal, keepPrev, mark)
  {
    var last := FindLastStamped(unseen);
    if last.None? {
      if keepPrev {
        return prev;
      }
      last := FindLastStamped(window);
      if last.None? {
        return prev;
      }
    }
    return CursorAt(last.value, offset + rawTotal, mark);
  }

  // ---- Build -----------------------------------------------------------------------------

  // These are the last of the hits, and as many as the limit admits.
  ghost predicate AreLast(lines: seq<Line>, hits: seq<Line>, limit: nat) {
    && |lines| == (if |hits| <= limit then |hits| else limit)
    && lines == hits[|hits| - |lines|..]
  }

  // Everything a page promises about the window it was built from, given what is unseen of it.
  ghost predicate Lists(p: Page, r: Resumption, req: Request) {
    var hits := Kept(r.unseen, req.keep);
    && AreLast(p.lines, hits, Limit(req.limit))
    && p.matched == |hits| == |p.lines| + p.dropped
  }

  ghost predicate Reports(p: Page, window: seq<Line>, r: Resumption, req: Request) {
    && p.levels == Tally(LevelLabels(r.unseen))
    && p.services == Tally(ServiceLabels(r.unseen))
    && p.resetReason == (if r.reset then ResetReason(window, req.cursor) else "")
  }

  function NextCursor(window: seq<Line>, rawTotal: nat, r: Resumption, req: Request, mark: Marker): Cursor {
    Advanced(req.cursor, window, r.unseen, r.offset + rawTotal, req.hasCursor && !r.reset, mark)
  }

  // What a client that follows the stream goes by.
  ghost predicate Follows(p: Page, window: seq<Line>, rawTotal: nat, req: Request, mark: Marker) {
    var r := Resume(window, req, mark);
    && Lists(p, r, req)
    && p.scanned == RawCounts(r.unseen) && p.reset == r.reset
    && p.nextCursor == Encode(NextCursor(window, rawTotal, r, req, mark))
  }

  ghost predicate PageOf(p: Page, rs: seq<RawLine>, req: Request, mark: Marker) {
    var window := Entries(rs, 0, req.raw);
    Follows(p, window, |rs|, req, mark) && Reports(p, window, Resume(window, req, mark), req)
  }

  method ResumeWindow(window: seq<Line>, req: Request, mark: Marker) returns (unseen: seq<Line>, offset: int, reset: bool)
    ensures Resume(window, req, mark) == Resumption(Shifted(unseen, offset), offset, reset)
  {
    unseen, offset, reset := window, 0, false;
    if req.hasCursor {
      var i, ok := Locate(window, req.cursor, mark);
      if ok {
        var consumed := 0;
        for k := 0 to i + 1
          invariant consumed == RawCounts(window[..k])
        {
          assert window[..k + 1][..k] == window[..k];
          consumed := consumed + window[k].RawCount();
        }
        unseen := window[i + 1..];
        offset := req.cursor.scanned - consumed;
      } else {
        reset := true;
      }
    }
  }

  lemma {:induction false} CollectStep(lines: seq<Line>, l: Line, keep: Line -> bool)
    ensures Kept(lines + [l], keep) == Kept(lines, keep) + if keep(l) then [l] else []
    ensures RawCounts(lines + [l]) == RawCounts(lines) + l.RawCount()
    ensures Tally(LevelLabels(lines + [l])) == Incremented(Tally(LevelLabels(lines)), LevelTag(l))
    ensures var services := Tally(ServiceLabels(lines));
            Tally(ServiceLabels(lines + [l]))
            == if l.fields.service != "" then Incremented(services, l.fields.service) else services
  {
    var all := lines + [l];
    assert all[..|all| - 1] == lines;
    var levels, services := LevelLabels(all), ServiceLabels(all);
    assert levels[..|levels| - 1] == LevelLabels(lines);
    if l.fields.service != "" {
      assert services[..|services| - 1] == ServiceLabels(lines);
    } else {
      assert services == ServiceLabels(lines);
    }
  }

  lemma {:induction false} ShiftedStep(lines: seq<Line>, i: nat, offset: int)
    requires i < |lines|
    ensures Shifted(lines[..i + 1], offset) == Shifted(lines[..i], offset) + [lines[i].(pos := lines[i].pos + offset)]
  {
  }

  // The loop over the unseen entries: renumber, count, collect facets and filter.
  method Collect(stale: seq<Line>, offset: int, keep: Line -> bool)
    returns (unseen: seq<Line>, lines: seq<Line>, scanned: nat, levels: map<string, nat>, services: map<string, nat>)
    ensures unseen == Shifted(stale, offset)
    ensures lines == Kept(unseen, keep)
    ensures scanned == RawCounts(unseen)
    ensures levels == Tally(LevelLabels(unseen))
    ensures services == Tally(ServiceLabels(unseen))
  {
    unseen, lines, scanned, levels, services := [], [], 0, map[], map[];
    for i := 0 to |stale|
      invariant unseen == Shifted(stale[..i], offset)
      invariant scanned == RawCounts(unseen)
      invariant lines == Kept(unseen, keep)
      invariant levels == Tally(LevelLabels(unseen))
      invariant services == Tally(ServiceLabels(unseen))
    {
      var l := stale[i].(pos := stale[i].pos + offset);
      CollectStep(unseen, l, keep);
      ShiftedStep(stale, i, offset);
      unseen := unseen + [l];
      scanned := scanned + l.RawCount();
      levels := Incremented(levels, LevelTag(l));
      if l.fields.service != "" {
        services := Incremented(services, l.fields.service);
      }
      if keep(l) {
        lines := lines + [l];
      }
    }
    assert stale[..|stale|] == stale;
  }

  // The newest entries up to the requested limit, and how many older ones that leaves out.
  method Cap(hits: seq<Line>, requested: int) returns (lines: seq<Line>, dropped: nat)
    ensures AreLast(lines, hits, Limit(requested))
    ensures |lines| + dropped == |hits|
  {
    var limit: int := requested;
    if limit <= 0 {
      limit := DEFAULT_LIMIT;
    }
    if limit > MAX_LINES {
      limit := MAX_LINES;
    }
    lines, dropped := hits, 0;
    if |lines| > limit {
      dropped := |lines| - limit;
      lines := lines[|lines| - limit..];
    }
  }

  lemma {:induction false} Listed(p: Page, r: Resumption, req: Request, hits: seq<Line>)
    requires hits == Kept(r.unseen, req.keep) && p.matched == |hits| == |p.lines| + p.dropped
    requires AreLast(p.lines, hits, Limit(req.limit))
    ensures Lists(p, r, req)
  {
  }

  lemma {:induction false} Assembled(
      p: Page, rs: seq<RawLine>, window: seq<Line>, r: Resumption, next: Cursor, req: Request, mark: Marker)
    requires window == Entries(rs, 0, req.raw) && r == Resume(window, req, mark)
    requires Lists(p, r, req) && p.scanned == RawCounts(r.unseen) && p.reset == r.reset
    requires next == NextCursor(window, |rs|, r, req, mark) && p.nextCursor == Encode(next)
    requires p.levels == Tally(LevelLabels(r.unseen)) && p.services == Tally(ServiceLabels(r.unseen))
    requires p.resetReason == if r.reset then ResetReason(window, req.cursor) else ""
    ensures PageOf(p, rs, req, mark)
  {
  }

  method Build(rs: seq<RawLine>, req: Request, mark: Marker) returns (p: Page)
    ensures PageOf(p, rs, req, mark)
  {
    var window, rawTotal := Scan(rs, 0, req.raw);
    var stale, offset, reset := ResumeWindow(window, req, mark);
    var unseen, hits, scanned, levels, services := Collect(stale, offset, req.keep);
    var lines, dropped := Cap(hits, req.limit);
    var next := Advance(req.cursor, window, unseen, offset, rawTotal, req.hasCursor && !reset, mark);
    p := Page(lines, Encode(next), reset, if reset then ResetReason(window, req.cursor) else "",
              scanned, |hits|, dropped, levels, services);
    ghost var r := Resumption(unseen, offset, reset);
    Listed(p, r, req, hits);
    Assembled(p, rs, window, r, next, req, mark);
  }
}
