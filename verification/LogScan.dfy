/**
 * Folding the physical lines of a container log into entries (internal/logs/parse.go).
 *
 * A physical line arrives here with the runtime's timestamp prefix peeled off and the
 * five-field parse already attempted; what `Scan` decides is which lines open an entry,
 * which ones are continuations of the entry before, and how everything is numbered.
 */
module LogScan {
  import opened Basics

  // Nanoseconds since the Unix epoch; ZERO_TIME is Go's zero time (1 January of year 1).
  type Instant = int
  const ZERO_TIME: Instant := -62_135_596_800_000_000_000

  // The five pipe-delimited fields. An empty level marks a line that did not parse.
  datatype Fields = Fields(logAt: string, level: string, service: string, source: string, msg: string)

  // One physical line: its text, the runtime stamp (ZERO_TIME when there is none), the text
  // after the stamp, and the five fields when that text is structured.
  datatype RawLine = RawLine(text: string, at: Instant, rest: string, parsed: Option<Fields>) {
    predicate Structured() { parsed.Some? }

    function Head(): Fields {
      match parsed
      case Some(f) => f
      case None => Fields("", "", "", "", rest)
    }
  }

  datatype Line = Line(
    pos: int,  // Seq: position in the raw stream
    at: Instant,
    fields: Fields,
    cont: seq<string>,
    continuation: bool,
    raw: string
  ) {
    // How many physical lines this entry consumed.
    function RawCount(): nat { 1 + |cont| }
  }

  function Opened(r: RawLine, pos: int, keepRaw: bool): Line {
    Line(pos, r.at, r.Head(), [], !r.Structured(), if keepRaw then r.text else "")
  }

  function Extended(l: Line, r: RawLine, keepRaw: bool): Line {
    l.(cont := l.cont + [r.rest], raw := if keepRaw then l.raw + "\n" + r.text else l.raw)
  }

  // What one more physical line does to the entries before it.
  function Fold(lines: seq<Line>, r: RawLine, pos: int, keepRaw: bool): seq<Line> {
    var n := |lines|;
    if !r.Structured() && n > 0 then lines[n - 1 := Extended(lines[n - 1], r, keepRaw)]
    else lines + [Opened(r, pos, keepRaw)]
  }

  function Entries(rs: seq<RawLine>, start: int, keepRaw: bool): (lines: seq<Line>)
    ensures lines == [] <==> rs == []
  {
    if rs == [] then []
    else
      var n := |rs| - 1;
      Fold(Entries(rs[..n], start, keepRaw), rs[n], start + n, keepRaw)
  }

  method Scan(rs: seq<RawLine>, start: int, keepRaw: bool) returns (lines: seq<Line>, rawTotal: nat)
    ensures lines == Entries(rs, start, keepRaw)
    ensures rawTotal == |rs|
  {
    lines, rawTotal := [], 0;
    for i := 0 to |rs|
      invariant rawTotal == i
      invariant lines == Entries(rs[..i], start, keepRaw)
    {
      var r := rs[i];
      var n := |lines|;
      assert rs[..i + 1][..i] == rs[..i];
      if !r.Structured() && n > 0 {
        lines := lines[n - 1 := Extended(lines[n - 1], r, keepRaw)];
      } else {
        lines := lines + [Opened(r, start + rawTotal, keepRaw)];
      }
      rawTotal := rawTotal + 1;
    }
    assert rs[..|rs|] == rs;
  }

  // ---- what the entries of a window are -------------------------------------------------

  function Rests(rs: seq<RawLine>): seq<string> {
    seq(|rs|, i requires 0 <= i < |rs| => rs[i].rest)
  }

  // The lines joined by newlines.
  function Joined(rs: seq<RawLine>): string {
    if rs == [] then ""
    else if |rs| == 1 then rs[0].text
    else Joined(rs[..|rs| - 1]) + "\n" + rs[|rs| - 1].text
  }

  // The entry a whole run of physical lines becomes: the first opens it, the others follow.
  ghost predicate IsPiece(l: Line, rs: seq<RawLine>, keepRaw: bool) {
    && rs != []
    && l.at == rs[0].at
    && l.fields == rs[0].Head()
    && l.continuation == !rs[0].Structured()
    && l.cont == Rests(rs[1..])
    && l.raw == (if keepRaw then Joined(rs) else "")
    && forall j | 0 < j < |rs| :: !rs[j].Structured()
  }

  // Where entry i of a window starts, as an index into the window's physical lines.
  function Offset(lines: seq<Line>, i: nat, start: int, total: nat): int
    requires i <= |lines|
  {
    if i == |lines| then total else lines[i].pos - start
  }

  // Entry i owns exactly the physical lines from its own position up to the next entry's, and
  // every entry but the first opens on a structured line.
  ghost predicate OwnsItsLines(lines: seq<Line>, i: nat, rs: seq<RawLine>, start: int, keepRaw: bool)
    requires i < |lines|
  {
    var lo, hi := Offset(lines, i, start, |rs|), Offset(lines, i + 1, start, |rs|);
    && 0 <= lo < hi <= |rs|
    && IsPiece(lines[i], rs[lo..hi], keepRaw)
    && (i > 0 ==> rs[lo].Structured())
  }

  ghost predicate Partitions(lines: seq<Line>, rs: seq<RawLine>, start: int, keepRaw: bool) {
    && Offset(lines, 0, start, |rs|) == 0
    && forall i | 0 <= i < |lines| :: OwnsItsLines(lines, i, rs, start, keepRaw)
  }

  lemma {:induction false} PieceExtended(l: Line, rs: seq<RawLine>, r: RawLine, keepRaw: bool)
    requires IsPiece(l, rs, keepRaw) && !r.Structured()
    ensures IsPiece(Extended(l, r, keepRaw), rs + [r], keepRaw)
  {
    assert (rs + [r])[1..] == rs[1..] + [r];
    assert (rs + [r])[..|rs|] == rs;
  }

  // Ownership of an entry does not change when the window grows behind the next one.
  lemma {:induction false} OwnershipFramed(prev: seq<Line>, lines: seq<Line>, i: nat, rs: seq<RawLine>, r: RawLine, start: int, keepRaw: bool)
    requires i < |prev| <= |lines| && OwnsItsLines(prev, i, rs, start, keepRaw)
    requires lines[i] == prev[i]
    requires Offset(lines, i + 1, start, |rs| + 1) == Offset(prev, i + 1, start, |rs|)
    ensures OwnsItsLines(lines, i, rs + [r], start, keepRaw)
  {
    var lo, hi := Offset(prev, i, start, |rs|), Offset(prev, i + 1, start, |rs|);
    assert (rs + [r])[lo..hi] == rs[lo..hi];
  }

  lemma {:induction false} FoldPartitions(prev: seq<Line>, rs: seq<RawLine>, r: RawLine, start: int, keepRaw: bool)
    requires Partitions(prev, rs, start, keepRaw) && (prev == [] <==> rs == [])
    ensures Partitions(Fold(prev, r, start + |rs|, keepRaw), rs + [r], start, keepRaw)
  {
    var lines, m := Fold(prev, r, start + |rs|, keepRaw), |prev|;
    forall i | 0 <= i < |lines| ensures OwnsItsLines(lines, i, rs + [r], start, keepRaw) {
      if i < m - 1 || (i < m && r.Structured()) {
        OwnershipFramed(prev, lines, i, rs, r, start, keepRaw);
      } else if i < m {
        var lo := Offset(prev, i, start, |rs|);
        assert OwnsItsLines(prev, i, rs, start, keepRaw);
        PieceExtended(prev[i], rs[lo..|rs|], r, keepRaw);
        assert (rs + [r])[lo..|rs| + 1] == rs[lo..|rs|] + [r];
      } else {
        assert (rs + [r])[|rs|..|rs| + 1] == [r];
      }
    }
  }

  lemma {:induction false} EntriesPartition(rs: seq<RawLine>, start: int, keepRaw: bool)
    ensures Partitions(Entries(rs, start, keepRaw), rs, start, keepRaw)
  {
    if rs != [] {
      var n := |rs| - 1;
      EntriesPartition(rs[..n], start, keepRaw);
      FoldPartitions(Entries(rs[..n], start, keepRaw), rs[..n], rs[n], start, keepRaw);
      assert rs[..n] + [rs[n]] == rs;
    }
  }

  function RawCounts(lines: seq<Line>): nat {
    if lines == [] then 0 else RawCounts(lines[..|lines| - 1]) + lines[|lines| - 1].RawCount()
  }

  lemma {:induction false} RawCountsConcat(a: seq<Line>, b: seq<Line>)
    ensures RawCounts(a + b) == RawCounts(a) + RawCounts(b)
  {
    if b == [] {
      assert a + b == a;
    } else {
      assert (a + b)[..|a + b| - 1] == a + b[..|b| - 1];
      RawCountsConcat(a, b[..|b| - 1]);
    }
  }

  // No physical line is lost or counted twice.
  lemma {:induction false} EntriesRawCount(rs: seq<RawLine>, start: int, keepRaw: bool)
    ensures RawCounts(Entries(rs, start, keepRaw)) == |rs|
  {
    if rs != [] {
      var n := |rs| - 1;
      EntriesRawCount(rs[..n], start, keepRaw);
      var prev, lines := Entries(rs[..n], start, keepRaw), Entries(rs, start, keepRaw);
      assert lines[..|lines| - 1] == if |lines| == |prev| then prev[..|prev| - 1] else prev;
    }
  }

  lemma {:induction false} FoldBehind(a: seq<Line>, b: seq<Line>, r: RawLine, pos: int, keepRaw: bool)
    requires b != [] || r.Structured()
    ensures Fold(a + b, r, pos, keepRaw) == a + Fold(b, r, pos, keepRaw)
  {
  }

  // A window can be cut in front of any structured line: the entries of the two parts are the
  // entries of the whole.
  lemma {:induction false} EntriesSplit(xs: seq<RawLine>, ys: seq<RawLine>, start: int, keepRaw: bool)
    requires ys != [] ==> ys[0].Structured()
    ensures Entries(xs + ys, start, keepRaw) == Entries(xs, start, keepRaw) + Entries(ys, start + |xs|, keepRaw)
  {
    if ys == [] {
      assert xs + ys == xs;
    } else {
      var n := |ys| - 1;
      assert (xs + ys)[..|xs + ys| - 1] == xs + ys[..n];
      EntriesSplit(xs, ys[..n], start, keepRaw);
      var b := Entries(ys[..n], start + |xs|, keepRaw);
      FoldBehind(Entries(xs, start, keepRaw), b, ys[n], start + |xs| + n, keepRaw);
    }
  }

  // Renumbering a window is scanning it with another start.
  function Shifted(lines: seq<Line>, shift: int): seq<Line> {
    seq(|lines|, i requires 0 <= i < |lines| => lines[i].(pos := lines[i].pos + shift))
  }

  lemma {:induction false} EntriesShifted(rs: seq<RawLine>, start: int, shift: int, keepRaw: bool)
    ensures Shifted(Entries(rs, start, keepRaw), shift) == Entries(rs, start + shift, keepRaw)
  {
    if rs != [] {
      EntriesShifted(rs[..|rs| - 1], start, shift, keepRaw);
    }
  }

  // With Raw requested, the entries' texts are the window's physical lines, in order.
  function RawText(lines: seq<Line>): string {
    if lines == [] then ""
    else if |lines| == 1 then lines[0].raw
    else RawText(lines[..|lines| - 1]) + "\n" + lines[|lines| - 1].raw
  }

  lemma {:induction false} RawTextIsWindow(rs: seq<RawLine>, start: int)
    ensures RawText(Entries(rs, start, true)) == Joined(rs)
  {
    if rs != [] {
      var n := |rs| - 1;
      var r, prev, lines := rs[n], Entries(rs[..n], start, true), Entries(rs, start, true);
      RawTextIsWindow(rs[..n], start);
      EntriesRawCount(rs[..n], start, true);
      if n > 0 {
        if |lines| == |prev| {
          assert lines[..|lines| - 1] == prev[..|prev| - 1];
        } else {
          assert lines[..|lines| - 1] == prev;
        }
      }
    }
  }
}
