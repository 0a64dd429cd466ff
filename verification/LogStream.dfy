/**
 * Whole runs of polls: which entries a series of pages delivers.
 */
module LogStream {
  import opened Basics
  import opened Decimal
  import opened LogScan
  import opened LogCursor
  import opened LogPage
  import opened LogTail

  // What a client keeps the same from poll to poll.
  datatype View = View(limit: int, keep: Line -> bool, raw: bool)

  // ---- the stream of positions -----------------------------------------------------------

  // Every poll's window contains the line its cursor names.
  ghost predicate AllSee(log: Log, pl: Place, ws: seq<Window>, mark: Marker)
    requires WellPlaced(log, pl)
    decreases |ws|
  {
    ws == [] ||
    (Sees(log, ws[0], pl) &&
     (MovedWellPlaced(log, pl, ws[0].hi, mark);
      AllSee(log, Moved(log, pl, ws[0].hi, mark), ws[1..], mark)))
  }

  // The positions of the structured lines the polls deliver, in the order they come.
  function Delivered(log: Log, pl: Place, ws: seq<Window>, mark: Marker): seq<nat>
    requires WellPlaced(log, pl) && AllSee(log, pl, ws, mark)
    decreases |ws|
  {
    if ws == [] then []
    else
      var hi := ws[0].hi;
      MovedWellPlaced(log, pl, hi, mark);
      Heads(log, FirstUnseen(log, pl, hi, mark), hi) + Delivered(log, Moved(log, pl, hi, mark), ws[1..], mark)
  }

  // The entries themselves.
  function Stream(log: Log, pl: Place, ws: seq<Window>, raw: bool, mark: Marker): seq<Line>
    requires WellPlaced(log, pl) && AllSee(log, pl, ws, mark)
    decreases |ws|
  {
    if ws == [] then []
    else
      var hi := ws[0].hi;
      MovedWellPlaced(log, pl, hi, mark);
      Entries(log[FirstUnseen(log, pl, hi, mark)..hi], pl.scanned, raw)
      + Stream(log, Moved(log, pl, hi, mark), ws[1..], raw, mark)
  }

  lemma {:induction false} StreamContents(log: Log, pl: Place, ws: seq<Window>, raw: bool, mark: Marker)
    requires WellPlaced(log, pl) && AllSee(log, pl, ws, mark)
    ensures Contents(Stream(log, pl, ws, raw, mark)) == ContentsAt(log, Delivered(log, pl, ws, mark))
    decreases |ws|
  {
    if ws != [] {
      var hi := ws[0].hi;
      var from, next := FirstUnseen(log, pl, hi, mark), Moved(log, pl, hi, mark);
      MovedWellPlaced(log, pl, hi, mark);
      EntriesContents(log, from, hi, pl.scanned, raw);
      StreamContents(log, next, ws[1..], raw, mark);
      ContentsConcat(Entries(log[from..hi], pl.scanned, raw), Stream(log, next, ws[1..], raw, mark),
                     log, Heads(log, from, hi), Delivered(log, next, ws[1..], mark));
    }
  }

  lemma {:induction false} ContentsConcat(a: seq<Line>, b: seq<Line>, log: Log, x: seq<nat>, y: seq<nat>)
    requires Contents(a) == ContentsAt(log, x) && Contents(b) == ContentsAt(log, y)
    ensures Contents(a + b) == ContentsAt(log, x + y)
  {
    assert Contents(a + b) == Contents(a) + Contents(b);
    assert ContentsAt(log, x + y) == ContentsAt(log, x) + ContentsAt(log, y);
  }

  // ---- nothing twice ---------------------------------------------------------------------

  ghost predicate Rising(places: seq<nat>, above: nat) {
    && (forall i | 0 <= i < |places| :: places[i] > above)
    && forall i, j | 0 <= i < j < |places| :: places[i] < places[j]
  }

  lemma {:induction false} HeadsBelow(log: Log, lo: nat, hi: nat)
    requires hi <= |log|
    ensures forall i | 0 <= i < |Heads(log, lo, hi)| :: lo <= Heads(log, lo, hi)[i] < hi
  {
    var heads := Heads(log, lo, hi);
    forall i | 0 <= i < |heads| ensures lo <= heads[i] < hi {
      HeadsAre(log, lo, hi, heads[i]);
    }
  }

  lemma {:induction false} RisingConcat(a: seq<nat>, b: seq<nat>, above: nat, mid: nat)
    requires Rising(a, above) && Rising(b, mid) && above <= mid
    requires forall i | 0 <= i < |a| :: a[i] <= mid
    ensures Rising(a + b, above)
  {
  }

  lemma {:induction false} HeadsRise(log: Log, lo: nat, hi: nat, above: nat)
    requires above < lo && hi <= |log|
    ensures Rising(Heads(log, lo, hi), above)
  {
    if lo < hi {
      HeadsRise(log, lo, hi - 1, above);
      HeadsBelow(log, lo, hi - 1);
    }
  }

  // Whatever the windows and however often lines repeat, positions only move forward: no line
  // is delivered twice, and the order is the log's.
  lemma {:induction false} NothingTwice(log: Log, pl: Place, ws: seq<Window>, mark: Marker)
    requires WellPlaced(log, pl) && AllSee(log, pl, ws, mark)
    ensures Rising(Delivered(log, pl, ws, mark), pl.p)
    decreases |ws|
  {
    if ws != [] {
      var hi := ws[0].hi;
      var from, next := FirstUnseen(log, pl, hi, mark), Moved(log, pl, hi, mark);
      MovedWellPlaced(log, pl, hi, mark);
      NothingTwice(log, next, ws[1..], mark);
      HeadsRise(log, from, hi, pl.p);
      var heads := Heads(log, from, hi);
      forall i | 0 <= i < |heads| ensures heads[i] <= next.p {
        HeadsAre(log, from, hi, heads[i]);
      }
      RisingConcat(heads, Delivered(log, next, ws[1..], mark), pl.p, next.p);
    }
  }

  // ---- exactly once ----------------------------------------------------------------------

  // The furthest end of any window.
  function ReadUpTo(from: nat, ws: seq<Window>): nat {
    if ws == [] then from
    else
      var rest := ReadUpTo(from, ws[1..]);
      if ws[0].hi > rest then ws[0].hi else rest
  }

  lemma {:induction false} ReadUpToFrom(a: nat, b: nat, ws: seq<Window>)
    requires a <= b
    ensures b <= ReadUpTo(b, ws)
    ensures ReadUpTo(b, ws) == if ReadUpTo(a, ws) < b then b else ReadUpTo(a, ws)
  {
    if ws != [] {
      ReadUpToFrom(a, b, ws[1..]);
    }
  }

  // No poll's window holds, behind the line its cursor names, another line with that line's
  // stamp and mark.
  ghost predicate NoRepeats(log: Log, pl: Place, ws: seq<Window>, mark: Marker)
    requires WellPlaced(log, pl) && AllSee(log, pl, ws, mark)
    decreases |ws|
  {
    ws == [] ||
    (LastRepeat(log, pl.p, ws[0].hi, mark) == pl.p &&
     (MovedWellPlaced(log, pl, ws[0].hi, mark);
      NoRepeats(log, Moved(log, pl, ws[0].hi, mark), ws[1..], mark)))
  }

  // An append-only log read without truncation: windows never end earlier than before.
  ghost predicate EndsGrow(ws: seq<Window>) {
    forall i, j | 0 <= i < j < |ws| :: ws[i].hi <= ws[j].hi
  }

  lemma {:induction false} ReadWithinLog(log: Log, pl: Place, from: nat, ws: seq<Window>, mark: Marker)
    requires WellPlaced(log, pl) && AllSee(log, pl, ws, mark) && from <= |log|
    ensures from <= ReadUpTo(from, ws) <= |log|
    decreases |ws|
  {
    if ws != [] {
      MovedWellPlaced(log, pl, ws[0].hi, mark);
      ReadWithinLog(log, Moved(log, pl, ws[0].hi, mark), from, ws[1..], mark);
    }
  }

  lemma {:induction false} HeadsPadded(log: Log, upto: nat, hi: nat, to: nat)
    requires upto <= to <= |log| && hi <= |log|
    requires forall j | upto <= j < hi :: !log[j].Structured()
    ensures Heads(log, upto, if hi > to then hi else to) == Heads(log, upto, to)
  {
    if hi > to {
      NoHeads(log, upto, hi);
      NoHeads(log, upto, to);
    }
  }

  lemma {:induction false} HeadsPieces(log: Log, upto: nat, from: nat, hi: nat, to: nat)
    requires upto <= from <= hi <= to <= |log|
    requires forall j | upto <= j < from :: !log[j].Structured()
    ensures Heads(log, upto, to) == Heads(log, from, hi) + Heads(log, hi, to)
  {
    HeadsSplit(log, upto, from, to);
    HeadsSplit(log, from, hi, to);
    NoHeads(log, upto, from);
  }

  // What one poll without a repetition leaves for the others to deliver. Here to and rest are how
  // far the polls read in all, and how far those after this one do.
  lemma {:induction false} HeadsOfPoll(log: Log, pl: Place, hi: nat, to: nat, rest: nat, mark: Marker)
    requires WellPlaced(log, pl) && pl.p < hi <= |log|
    requires LastRepeat(log, pl.p, hi, mark) == pl.p
    requires Moved(log, pl, hi, mark).upto <= rest <= |log|
    requires to == if hi > rest then hi else rest
    ensures Heads(log, pl.upto, to)
         == Heads(log, FirstUnseen(log, pl, hi, mark), hi) + Heads(log, Moved(log, pl, hi, mark).upto, rest)
  {
    var from := FirstUnseen(log, pl, hi, mark);
    NoHeads(log, pl.upto, from);
    if from == hi {
      NoHeads(log, from, hi);
      HeadsPadded(log, pl.upto, hi, rest);
    } else {
      HeadsPieces(log, pl.upto, from, hi, to);
    }
  }

  // How far the polls read, counted from the first one or from the second.
  lemma {:induction false} ReadAfter(log: Log, pl: Place, ws: seq<Window>, mark: Marker)
    requires WellPlaced(log, pl) && AllSee(log, pl, ws, mark) && ws != []
    ensures var upto := Moved(log, pl, ws[0].hi, mark).upto;
            var rest := ReadUpTo(upto, ws[1..]);
            && upto <= rest <= |log|
            && ReadUpTo(pl.upto, ws) == (if ws[0].hi > rest then ws[0].hi else rest)
  {
    var next := Moved(log, pl, ws[0].hi, mark);
    MovedWellPlaced(log, pl, ws[0].hi, mark);
    ReadWithinLog(log, next, next.upto, ws[1..], mark);
    ReadUpToFrom(pl.upto, next.upto, ws[1..]);
  }

  // The stream is every structured line behind the first window, each once and in order.
  lemma {:induction false} ExactlyOnce(log: Log, pl: Place, ws: seq<Window>, mark: Marker)
    requires WellPlaced(log, pl) && AllSee(log, pl, ws, mark) && NoRepeats(log, pl, ws, mark)
    ensures ReadUpTo(pl.upto, ws) <= |log|
    ensures Delivered(log, pl, ws, mark) == Heads(log, pl.upto, ReadUpTo(pl.upto, ws))
    decreases |ws|
  {
    if ws == [] {
      NoHeads(log, pl.upto, pl.upto);
    } else {
      var next := Moved(log, pl, ws[0].hi, mark);
      MovedWellPlaced(log, pl, ws[0].hi, mark);
      ReadAfter(log, pl, ws, mark);
      HeadsOfPoll(log, pl, ws[0].hi, ReadUpTo(pl.upto, ws), ReadUpTo(next.upto, ws[1..]), mark);
      ExactlyOnce(log, next, ws[1..], mark);
    }
  }

  // A line the cursor was mistaken for, or has moved past, is never delivered again.
  lemma {:induction false} SkippedForGood(log: Log, pl: Place, ws: seq<Window>, q: nat, mark: Marker)
    requires WellPlaced(log, pl) && AllSee(log, pl, ws, mark)
    requires q < |log| && log[q].Structured()
    requires q <= pl.p || (SameKey(log[pl.p], log[q], mark) && forall w | w in ws :: q < w.hi)
    ensures q !in Delivered(log, pl, ws, mark)
    decreases |ws|
  {
    if q <= pl.p {
      NothingTwice(log, pl, ws, mark);
    } else if ws != [] {
      var hi := ws[0].hi;
      assert ws[0] in ws;
      MovedWellPlaced(log, pl, hi, mark);
      assert LastRepeat(log, pl.p, hi, mark) >= q;
      HeadsBelow(log, FirstUnseen(log, pl, hi, mark), hi);
      SkippedForGood(log, Moved(log, pl, hi, mark), ws[1..], q, mark);
    }
  }

  // Physical line j is among those some poll delivers, as an entry or as part of one.
  ghost predicate Reads(log: Log, pl: Place, ws: seq<Window>, j: nat, mark: Marker)
    requires WellPlaced(log, pl) && AllSee(log, pl, ws, mark)
    decreases |ws|
  {
    ws != [] && (
      var hi := ws[0].hi;
      MovedWellPlaced(log, pl, hi, mark);
      FirstUnseen(log, pl, hi, mark) <= j < hi || Reads(log, Moved(log, pl, hi, mark), ws[1..], j, mark))
  }

  // A continuation written behind an entry that was already delivered is part of no later page.
  lemma {:induction false} LateContinuationIsLost(log: Log, pl: Place, ws: seq<Window>, j: nat, mark: Marker)
    requires WellPlaced(log, pl) && AllSee(log, pl, ws, mark) && j < |log|
    requires forall i | pl.p < i <= j :: !log[i].Structured()
    ensures !Reads(log, pl, ws, j, mark)
    decreases |ws|
  {
    if ws != [] {
      var hi := ws[0].hi;
      var from, next := FirstUnseen(log, pl, hi, mark), Moved(log, pl, hi, mark);
      MovedWellPlaced(log, pl, hi, mark);
      assert from < hi ==> j < from <= next.p;
      LateContinuationIsLost(log, next, ws[1..], j, mark);
    }
  }

  // The first window that ends behind line h ends behind line j.
  ghost predicate ReachedWhole(ws: seq<Window>, h: nat, j: nat) {
    exists k | 0 <= k < |ws| :: j < ws[k].hi && forall i | 0 <= i < k :: ws[i].hi <= h
  }

  lemma {:induction false} ReachedRest(ws: seq<Window>, h: nat, j: nat)
    requires ws != [] && ws[0].hi <= h <= j
    ensures ReachedWhole(ws, h, j) <==> ReachedWhole(ws[1..], h, j)
  {
    if ReachedWhole(ws, h, j) {
      var k :| 0 <= k < |ws| && j < ws[k].hi && forall i | 0 <= i < k :: ws[i].hi <= h;
      assert ws[1..][k - 1] == ws[k];
      assert forall i | 0 <= i < k - 1 :: ws[1..][i] == ws[i + 1];
    }
    if ReachedWhole(ws[1..], h, j) {
      var k :| 0 <= k < |ws[1..]| && j < ws[1..][k].hi && forall i | 0 <= i < k :: ws[1..][i].hi <= h;
      assert ws[k + 1] == ws[1..][k];
      forall i | 0 <= i < k + 1 ensures ws[i].hi <= h {
        if i > 0 { assert ws[i] == ws[1..][i - 1]; }
      }
    }
  }

  // Line j of the entry that opens on line h, neither of them read yet, is delivered exactly when the first
  // window that reaches its entry reaches it too.
  lemma {:induction false} ContinuationDeliveredIff(log: Log, pl: Place, ws: seq<Window>, h: nat, j: nat, mark: Marker)
    requires WellPlaced(log, pl) && AllSee(log, pl, ws, mark) && NoRepeats(log, pl, ws, mark)
    requires pl.upto <= h <= j < |log| && log[h].Structured()
    requires forall i | h < i <= j :: !log[i].Structured()
    ensures Reads(log, pl, ws, j, mark) <==> ReachedWhole(ws, h, j)
    decreases |ws|
  {
    if ws != [] {
      var hi := ws[0].hi;
      var from, next := FirstUnseen(log, pl, hi, mark), Moved(log, pl, hi, mark);
      MovedWellPlaced(log, pl, hi, mark);
      if hi <= h {
        ReachedRest(ws, h, j);
        ContinuationDeliveredIff(log, next, ws[1..], h, j, mark);
      } else if hi <= j {
        assert from <= h && next.p == h;
        LateContinuationIsLost(log, next, ws[1..], j, mark);
      } else {
        assert from <= h;
      }
    }
  }

  // The lines "head" and "tail", the second a continuation of the first.
  function TwoLineEntry(): Log {
    var head := Fields("", "INFO", "a.go:1", "rpc", "head");
    [RawLine("seed", 1, "seed", Some(head.(msg := "seed"))), RawLine("head", 2, "head", Some(head)), RawLine("tail", 2, "tail", None)]
  }

  // A poll that ends between the two delivers the first line and no poll ever the second.
  lemma {:induction false} TailIsLost(mark: Marker)
    ensures var log, pl, ws := TwoLineEntry(), Place(0, 1, 1), [Window(0, 2), Window(0, 3)];
            && WellPlaced(log, pl) && AllSee(log, pl, ws, mark) && NoRepeats(log, pl, ws, mark)
            && Reads(log, pl, ws, 1, mark) && !Reads(log, pl, ws, 2, mark)
  {
    var log, pl, ws := TwoLineEntry(), Place(0, 1, 1), [Window(0, 2), Window(0, 3)];
    var next := Place(1, 2, 2);
    assert FirstUnseen(log, pl, 2, mark) == 1 && Moved(log, pl, 2, mark) == next;
    assert FirstUnseen(log, next, 3, mark) == 3 && Moved(log, next, 3, mark) == next;
    var rest := [Window(0, 3)];
    assert ws[1..] == rest && rest[1..] == [];
    assert AllSee(log, next, rest, mark) && NoRepeats(log, next, rest, mark);
    assert !Reads(log, next, rest, 2, mark);
  }

  // A poll that takes another line for its cursor's delivers nothing, and some later window reaches that line.
  ghost predicate NothingSkipped(log: Log, pl: Place, ws: seq<Window>, mark: Marker)
    requires WellPlaced(log, pl) && AllSee(log, pl, ws, mark)
    decreases |ws|
  {
    ws == [] || (
      var hi := ws[0].hi;
      var q := LastRepeat(log, pl.p, hi, mark);
      MovedWellPlaced(log, pl, hi, mark);
      && (q == pl.p || (FirstUnseen(log, pl, hi, mark) == hi && q < ReadUpTo(pl.upto, ws[1..])))
      && NothingSkipped(log, Moved(log, pl, hi, mark), ws[1..], mark))
  }

  lemma {:induction false} DeliveredWithin(log: Log, pl: Place, ws: seq<Window>, from: nat, mark: Marker)
    requires WellPlaced(log, pl) && AllSee(log, pl, ws, mark)
    ensures forall d | d in Delivered(log, pl, ws, mark) :: d < ReadUpTo(from, ws)
    decreases |ws|
  {
    if ws != [] {
      MovedWellPlaced(log, pl, ws[0].hi, mark);
      DeliveredWithin(log, Moved(log, pl, ws[0].hi, mark), ws[1..], from, mark);
      HeadsBelow(log, FirstUnseen(log, pl, ws[0].hi, mark), ws[0].hi);
    }
  }

  // A poll that takes line q for its cursor's and delivers something skips q for good;
  lemma {:induction false} SkippingPoll(log: Log, pl: Place, ws: seq<Window>, q: nat, mark: Marker)
    requires WellPlaced(log, pl) && AllSee(log, pl, ws, mark) && ws != []
    requires pl.p < q == LastRepeat(log, pl.p, ws[0].hi, mark) && FirstUnseen(log, pl, ws[0].hi, mark) < ws[0].hi
    ensures q !in Delivered(log, pl, ws, mark)
  {
    var next := Moved(log, pl, ws[0].hi, mark);
    MovedWellPlaced(log, pl, ws[0].hi, mark);
    NothingTwice(log, next, ws[1..], mark);
    HeadsBelow(log, FirstUnseen(log, pl, ws[0].hi, mark), ws[0].hi);
  }

  // one that delivers nothing leaves the stream as it was, and q is still to come.
  lemma {:induction false} IdleMistake(log: Log, pl: Place, ws: seq<Window>, q: nat, to: nat, rest: nat, mark: Marker)
    requires WellPlaced(log, pl) && AllSee(log, pl, ws, mark) && ws != []
    requires pl.p < q == LastRepeat(log, pl.p, ws[0].hi, mark) && FirstUnseen(log, pl, ws[0].hi, mark) == ws[0].hi
    requires rest == ReadUpTo(pl.upto, ws[1..]) <= |log| && to == (if ws[0].hi > rest then ws[0].hi else rest)
    ensures Moved(log, pl, ws[0].hi, mark) == pl && AllSee(log, pl, ws[1..], mark)
    ensures Delivered(log, pl, ws, mark) == Delivered(log, pl, ws[1..], mark)
    ensures if q < rest then Heads(log, pl.upto, to) == Heads(log, pl.upto, rest) else q !in Delivered(log, pl, ws, mark)
  {
    var hi := ws[0].hi;
    assert Heads(log, hi, hi) == [];
    if q >= rest {
      DeliveredWithin(log, pl, ws[1..], pl.upto, mark);
    } else if rest < hi {
      NoLaterHeads(log, pl.upto, rest, q, hi);
    }
  }

  lemma {:induction false} NoLaterHeads(log: Log, upto: nat, rest: nat, q: nat, hi: nat)
    requires upto <= rest < hi <= |log| && q < rest && forall j | q < j < hi :: !log[j].Structured()
    ensures Heads(log, upto, hi) == Heads(log, upto, rest)
  {
    HeadsSplit(log, upto, rest, hi);
    NoHeads(log, rest, hi);
  }

  // The line a poll is mistaken for is among those the windows hold.
  lemma {:induction false} MistakenIsRead(log: Log, pl: Place, hi: nat, q: nat, to: nat, mark: Marker)
    requires WellPlaced(log, pl) && pl.p < hi <= to <= |log| && pl.p < q == LastRepeat(log, pl.p, hi, mark)
    ensures q in Heads(log, pl.upto, to)
  {
    HeadsAre(log, pl.upto, to, q);
  }

  // Whatever the windows, the stream is complete exactly when no poll skips a line for good.
  lemma {:induction false} CompleteIffNothingSkipped(log: Log, pl: Place, ws: seq<Window>, mark: Marker)
    requires WellPlaced(log, pl) && AllSee(log, pl, ws, mark)
    ensures ReadUpTo(pl.upto, ws) <= |log|
    ensures Delivered(log, pl, ws, mark) == Heads(log, pl.upto, ReadUpTo(pl.upto, ws))
            <==> NothingSkipped(log, pl, ws, mark)
    decreases |ws|
  {
    if ws == [] {
      NoHeads(log, pl.upto, pl.upto);
    } else {
      var hi, rest := ws[0].hi, ws[1..];
      var q, next := LastRepeat(log, pl.p, hi, mark), Moved(log, pl, hi, mark);
      MovedWellPlaced(log, pl, hi, mark);
      ReadAfter(log, pl, ws, mark);
      CompleteIffNothingSkipped(log, next, rest, mark);
      if q == pl.p {
        HeadsOfPoll(log, pl, hi, ReadUpTo(pl.upto, ws), ReadUpTo(next.upto, rest), mark);
        Cancelled(Heads(log, FirstUnseen(log, pl, hi, mark), hi), Delivered(log, next, rest, mark),
                  Heads(log, next.upto, ReadUpTo(next.upto, rest)));
      } else {
        MistakenIsRead(log, pl, hi, q, ReadUpTo(pl.upto, ws), mark);
        if FirstUnseen(log, pl, hi, mark) == hi {
          IdleMistake(log, pl, ws, q, ReadUpTo(pl.upto, ws), ReadUpTo(pl.upto, rest), mark);
        } else {
          SkippingPoll(log, pl, ws, q, mark);
        }
      }
    }
  }

  lemma {:induction false} RepeatLosesLine(log: Log, pl: Place, ws: seq<Window>, mark: Marker)
    requires WellPlaced(log, pl) && AllSee(log, pl, ws, mark) && EndsGrow(ws) && ws != []
    requires LastRepeat(log, pl.p, ws[0].hi, mark) != pl.p
    ensures ReadUpTo(pl.upto, ws) <= |log|
    ensures Delivered(log, pl, ws, mark) != Heads(log, pl.upto, ReadUpTo(pl.upto, ws))
  {
    var q := LastRepeat(log, pl.p, ws[0].hi, mark);
    forall w | w in ws ensures q < w.hi {
      var i :| 0 <= i < |ws| && ws[i] == w;
    }
    ReadWithinLog(log, pl, pl.upto, ws, mark);
    SkippedForGood(log, pl, ws, q, mark);
    HeadsAre(log, pl.upto, ReadUpTo(pl.upto, ws), q);
  }

  lemma {:induction false} Cancelled(a: seq<nat>, x: seq<nat>, y: seq<nat>)
    ensures a + x == a + y <==> x == y
  {
    assert (a + x)[|a|..] == x && (a + y)[|a|..] == y;
  }

  // On a log that only grows, the stream is complete exactly when no window repeats the cursor's
  // stamp and mark behind the cursor's line.
  lemma {:induction false} CompleteIffNoRepeats(log: Log, pl: Place, ws: seq<Window>, mark: Marker)
    requires WellPlaced(log, pl) && AllSee(log, pl, ws, mark) && EndsGrow(ws)
    ensures ReadUpTo(pl.upto, ws) <= |log|
    ensures Delivered(log, pl, ws, mark) == Heads(log, pl.upto, ReadUpTo(pl.upto, ws))
            <==> NoRepeats(log, pl, ws, mark)
    decreases |ws|
  {
    if NoRepeats(log, pl, ws, mark) {
      ExactlyOnce(log, pl, ws, mark);
    } else if LastRepeat(log, pl.p, ws[0].hi, mark) != pl.p {
      RepeatLosesLine(log, pl, ws, mark);
    } else {
      var next := Moved(log, pl, ws[0].hi, mark);
      MovedWellPlaced(log, pl, ws[0].hi, mark);
      ReadAfter(log, pl, ws, mark);
      HeadsOfPoll(log, pl, ws[0].hi, ReadUpTo(pl.upto, ws), ReadUpTo(next.upto, ws[1..]), mark);
      CompleteIffNoRepeats(log, next, ws[1..], mark);
      Cancelled(Heads(log, FirstUnseen(log, pl, ws[0].hi, mark), ws[0].hi), Delivered(log, next, ws[1..], mark),
                Heads(log, next.upto, ReadUpTo(next.upto, ws[1..])));
    }
  }

  // ---- numbering -------------------------------------------------------------------------

  ghost predicate NumbersRise(lines: seq<Line>, lo: int) {
    && (forall i | 0 <= i < |lines| :: lo <= lines[i].pos)
    && forall i, j | 0 <= i < j < |lines| :: lines[i].pos < lines[j].pos
  }

  lemma {:induction false} EntriesNumbered(rs: seq<RawLine>, start: int, raw: bool)
    ensures NumbersRise(Entries(rs, start, raw), start)
    ensures forall l | l in Entries(rs, start, raw) :: l.pos < start + |rs|
    ensures rs != [] ==> Entries(rs, start, raw)[0].pos == start
  {
    if rs != [] {
      EntriesNumbered(rs[..|rs| - 1], start, raw);
    }
  }

  lemma {:induction false} NumbersConcat(a: seq<Line>, b: seq<Line>, lo: int, mid: int)
    requires NumbersRise(a, lo) && NumbersRise(b, mid) && lo <= mid
    requires forall l | l in a :: l.pos < mid
    ensures NumbersRise(a + b, lo)
  {
  }

  // Filtering keeps numbers rising and brings in nothing new,
  lemma {:induction false} KeptRise(lines: seq<Line>, keep: Line -> bool, lo: int)
    requires NumbersRise(lines, lo)
    ensures NumbersRise(Kept(lines, keep), lo)
    ensures forall l | l in Kept(lines, keep) :: l in lines
  {
    if lines != [] {
      var n := |lines| - 1;
      KeptRise(lines[..n], keep, lo);
      assert lines == lines[..n] + [lines[n]];
      forall l | l in lines[..n] ensures l.pos < lines[n].pos {
        var i :| 0 <= i < n && lines[..n][i] == l;
        assert lines[i] == l;
      }
    }
  }

  // and so does keeping the newest.
  lemma {:induction false} NewestRise(lines: seq<Line>, limit: nat, lo: int)
    requires NumbersRise(lines, lo)
    ensures NumbersRise(Newest(lines, limit), lo)
    ensures forall l | l in Newest(lines, limit) :: l in lines
  {
  }

  // Across any number of pages the numbers rise strictly, starting from the cursor's count.
  lemma {:induction false} StreamNumbered(log: Log, pl: Place, ws: seq<Window>, raw: bool, mark: Marker)
    requires WellPlaced(log, pl) && AllSee(log, pl, ws, mark)
    ensures var lines := Stream(log, pl, ws, raw, mark);
            NumbersRise(lines, pl.scanned) && (lines != [] ==> lines[0].pos == pl.scanned)
    decreases |ws|
  {
    if ws != [] {
      var hi := ws[0].hi;
      var from, next := FirstUnseen(log, pl, hi, mark), Moved(log, pl, hi, mark);
      MovedWellPlaced(log, pl, hi, mark);
      EntriesNumbered(log[from..hi], pl.scanned, raw);
      StreamNumbered(log, next, ws[1..], raw, mark);
      NumbersConcat(Entries(log[from..hi], pl.scanned, raw), Stream(log, next, ws[1..], raw, mark),
                    pl.scanned, next.scanned);
    }
  }
}
