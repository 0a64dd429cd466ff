/** Positions in a container's raw log stream (internal/logs/cursor.go). */
module LogCursor {
  import opened Basics
  import opened Decimal
  import opened LogScan

  type Mark = m: int | 0 <= m < TWO_64 witness 0

  // The content hash of an entry. Only its fields go in: the continuations, the stamp and the
  // position do not. Everything below holds for every such hash.
  type Marker = Fields -> Mark

  datatype Cursor = Cursor(
    ts: Instant,   // runtime timestamp of the last entry delivered
    mark: Mark,    // content hash of that entry
    scanned: int   // raw lines delivered so far
  )

  const NO_CURSOR := Cursor(ZERO_TIME, 0, 0)
  const REWIND: Instant := 1_000_000_000

  function Since(c: Cursor): Instant { c.ts - REWIND }

  // ---- the wire form --------------------------------------------------------------------

  function Encode(c: Cursor): string {
    FormatInt(Wrap64(c.ts)) + ":" + FormatInt(c.mark) + ":" + FormatInt(c.scanned)
  }

  function Split(s: string, sep: char): (parts: seq<string>)
    ensures parts != []
  {
    if s == [] then [[]]
    else
      var rest := Split(s[1..], sep);
      if s[0] == sep then [[]] + rest else [[s[0]] + rest[0]] + rest[1..]
  }

  function DecodeCursor(s: string): Result<Cursor> {
    if s == "" then Ok(NO_CURSOR)
    else
      var parts := Split(s, ':');
      if |parts| != 3 then Err("malformed cursor")
      else
        match (ParseInt64(parts[0]), ParseUint64(parts[1]), ParseInt64(parts[2]))
        case (None, _, _) => Err("malformed cursor timestamp")
        case (_, None, _) => Err("malformed cursor mark")
        case (_, _, None) => Err("malformed cursor position")
        case (Some(ns), Some(mark), Some(n)) =>
          if n < 0 then Err("malformed cursor position") else Ok(Cursor(ns, mark, n))
  }

  lemma {:induction false} SplitAtSeparator(a: string, b: string, sep: char)
    requires sep !in a
    ensures Split(a + [sep] + b, sep) == [a] + Split(b, sep)
  {
    var s := a + [sep] + b;
    if a == [] {
      assert s[1..] == b;
    } else {
      assert s[1..] == a[1..] + [sep] + b;
      SplitAtSeparator(a[1..], b, sep);
      assert [a[0]] + a[1..] == a;
    }
  }

  lemma {:induction false} SplitWhole(a: string, sep: char)
    requires sep !in a
    ensures Split(a, sep) == [a]
  {
    if a != [] {
      SplitWhole(a[1..], sep);
      assert [a[0]] + a[1..] == a;
    }
  }

  // A cursor survives the wire exactly when its stamp fits in 64 bits of nanoseconds and its
  // count is one a decoder accepts.
  lemma {:induction false} CursorRoundTrip(c: Cursor)
    ensures DecodeCursor(Encode(c)) == Ok(c) <==> IsInt64(c.ts) && 0 <= c.scanned <= MAX_INT64
  {
    var a, b, n := FormatInt(Wrap64(c.ts)), FormatInt(c.mark), FormatInt(c.scanned);
    assert Encode(c) == a + [':'] + (b + [':'] + n);
    SplitAtSeparator(a, b + [':'] + n, ':');
    SplitAtSeparator(b, n, ':');
    SplitWhole(n, ':');
    ParseFormatInt(Wrap64(c.ts));
    ParseFormatUint(c.mark);
    ParseFormatInt(c.scanned);
  }

  // On the wire a cursor is three decimal numbers with colons between them,
  lemma {:induction false} WireParts(c: Cursor)
    ensures Split(Encode(c), ':') == [FormatInt(Wrap64(c.ts)), FormatInt(c.mark), FormatInt(c.scanned)]
  {
    var a, b, n := FormatInt(Wrap64(c.ts)), FormatInt(c.mark), FormatInt(c.scanned);
    assert Encode(c) == a + [':'] + (b + [':'] + n);
    SplitAtSeparator(a, b + [':'] + n, ':');
    SplitAtSeparator(b, n, ':');
    SplitWhole(n, ':');
  }

  lemma {:induction false} SplitCounts(s: string, sep: char)
    ensures |Split(s, sep)| == multiset(s)[sep] + 1
  {
    if s != [] {
      SplitCounts(s[1..], sep);
      assert s == [s[0]] + s[1..];
    }
  }

  // and no other text is taken for one, but for the empty text, which is the beginning.
  lemma {:induction false} DecodedHasTwoColons(s: string)
    ensures s == "" ==> DecodeCursor(s) == Ok(Cursor(ZERO_TIME, 0, 0))
    ensures s != "" && DecodeCursor(s).Ok? ==> multiset(s)[':'] == 2 && 0 <= DecodeCursor(s).value.scanned
  {
    SplitCounts(s, ':');
  }

  // ---- finding the position again -------------------------------------------------------

  predicate Matches(l: Line, c: Cursor, mark: Marker) {
    l.at == c.ts && mark(l.fields) == c.mark
  }

  // The most recent entry with the cursor's stamp and content.
  function LastMatch(window: seq<Line>, c: Cursor, mark: Marker): (r: Option<nat>)
    ensures r.Some? ==> r.value < |window| && Matches(window[r.value], c, mark)
  {
    if window == [] then None
    else
      var n := |window| - 1;
      if Matches(window[n], c, mark) then Some(n) else LastMatch(window[..n], c, mark)
  }

  method Locate(window: seq<Line>, c: Cursor, mark: Marker) returns (i: int, ok: bool)
    ensures LastMatch(window, c, mark) == if ok && i >= 0 then Some(i) else None
    ensures ok ==> 0 <= i < |window| && Matches(window[i], c, mark)
    ensures forall j | 0 <= j < |window| && (ok ==> i < j) :: !Matches(window[j], c, mark)
    ensures !ok ==> i == -1
  {
    i := |window| - 1;
    assert window[..|window|] == window;
    while i >= 0
      invariant -1 <= i < |window|
      invariant forall j | i < j < |window| :: !Matches(window[j], c, mark)
      invariant LastMatch(window, c, mark) == LastMatch(window[..i + 1], c, mark)
    {
      assert window[..i + 1][..i] == window[..i];
      if Matches(window[i], c, mark) {
        return i, true;
      }
      i := i - 1;
    }
    return -1, false;
  }

  lemma {:induction false} LastMatchIs(window: seq<Line>, c: Cursor, mark: Marker, i: nat)
    requires i < |window| && Matches(window[i], c, mark)
    requires forall j | i < j < |window| :: !Matches(window[j], c, mark)
    ensures LastMatch(window, c, mark) == Some(i)
  {
    var n := |window| - 1;
    if i < n {
      LastMatchIs(window[..n], c, mark, i);
    }
  }
}
