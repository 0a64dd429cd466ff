/**
 * The publisher's end of the alert sync protocol (bsv-regtest/alerts/host.go): one conversation
 * with one peer, started by the peer (Serve) or by the publisher (Push).
 */
module AlertHost {
  import opened Basics
  import opened AlertLog

  type PeerId = string

  datatype Message =
    | WantLatest
    | GotLatest(sequence: Sequence, data: Bytes)
    | WantSequence(sequence: Sequence)
    | GotSequence(sequence: Sequence, data: Bytes)
    | Unknown

  function WireOf(entries: Entries, s: Sequence): Bytes {
    if s in entries then entries[s].wire else []
  }

  // ---- serving an inbound sync -----------------------------------------------------------

  // The answer to one message under a cap; None closes the stream.
  function ServeAnswer(entries: Entries, cap: Sequence, m: Message): Option<Message> {
    match m
    case WantLatest => Some(GotLatest(cap, WireOf(entries, cap)))
    case WantSequence(s) => if s !in entries || s > cap then None else Some(GotSequence(s, entries[s].wire))
    case _ => None
  }

  function ServeAnswers(entries: Entries, cap: Sequence, incoming: seq<Message>): seq<Message> {
    if incoming == [] then []
    else
      match ServeAnswer(entries, cap, incoming[0])
      case None => []
      case Some(r) => [r] + ServeAnswers(entries, cap, incoming[1..])
  }

  // What a reply must be for the message it answers: the cap and the alert with that number, or the alert
  // asked for if it is stored and not above the cap.
  ghost predicate Replies(entries: Entries, cap: Sequence, m: Message, reply: Message) {
    match m
    case WantLatest => reply == GotLatest(cap, if cap in entries then entries[cap].wire else [])
    case WantSequence(s) => s in entries && s <= cap && reply == GotSequence(s, entries[s].wire)
    case _ => false
  }

  // The messages of a peer are answered in order, up to the first that asks for nothing it may have.
  lemma {:induction false} ServesInOrder(entries: Entries, cap: Sequence, incoming: seq<Message>)
    ensures var replies := ServeAnswers(entries, cap, incoming);
      && |replies| <= |incoming|
      && (forall k | 0 <= k < |replies| :: Replies(entries, cap, incoming[k], replies[k]))
      && (|replies| < |incoming| ==>
            var m := incoming[|replies|];
            m != WantLatest && !(m.WantSequence? && m.sequence in entries && m.sequence <= cap))
  {
    if incoming != [] && ServeAnswer(entries, cap, incoming[0]).Some? {
      var rest := ServeAnswers(entries, cap, incoming[1..]);
      ServesInOrder(entries, cap, incoming[1..]);
      assert ServeAnswers(entries, cap, incoming) == [ServeAnswer(entries, cap, incoming[0]).value] + rest;
    }
  }

  // ---- pushing ---------------------------------------------------------------------------

  datatype PushResult = PushResult(peerLatestBefore: Sequence, delivered: seq<Sequence>)

  // What Push sends and reports for the peer's messages, up to its own return or theirs ending.
  function PushReplies(entries: Entries, upTo: Sequence, incoming: seq<Message>): seq<Message> {
    if incoming == [] then []
    else
      match incoming[0]
      case WantSequence(s) =>
        if s !in entries || s > upTo then []
        else [GotSequence(s, entries[s].wire)] + PushReplies(entries, upTo, incoming[1..])
      case _ => PushReplies(entries, upTo, incoming[1..])
  }

  function Reported(entries: Entries, upTo: Sequence, incoming: seq<Message>, before: PushResult): PushResult {
    if incoming == [] then before
    else
      match incoming[0]
      case WantSequence(s) =>
        if s !in entries || s > upTo then before
        else Reported(entries, upTo, incoming[1..], PushResult(before.peerLatestBefore, before.delivered + [s]))
      case GotLatest(s, _) => Reported(entries, upTo, incoming[1..], PushResult(s, before.delivered))
      case _ => Reported(entries, upTo, incoming[1..], before)
  }

  // A reply in answer to a peer carries a sequence number no higher than the cap, and for that
  // number exactly the bytes in the log.
  ghost predicate Capped(entries: Entries, cap: Sequence, m: Message) {
    match m
    case GotSequence(s, data) => s <= cap && s in entries && data == entries[s].wire
    case GotLatest(s, data) => s == cap && data == if cap in entries then entries[cap].wire else []
    case _ => false
  }

  lemma {:induction false} ServeNeverExceedsCap(entries: Entries, cap: Sequence, incoming: seq<Message>)
    ensures forall m | m in ServeAnswers(entries, cap, incoming) :: Capped(entries, cap, m)
  {
    if incoming != [] && ServeAnswer(entries, cap, incoming[0]).Some? {
      ServeNeverExceedsCap(entries, cap, incoming[1..]);
    }
  }

  lemma {:induction false} ServeStep(entries: Entries, cap: Sequence, incoming: seq<Message>, i: nat, done: seq<Message>)
    requires i < |incoming|
    ensures done + ServeAnswers(entries, cap, incoming[i..])
         == match ServeAnswer(entries, cap, incoming[i])
            case None => done
            case Some(r) => (done + [r]) + ServeAnswers(entries, cap, incoming[i + 1..])
  {
    assert incoming[i..][1..] == incoming[i + 1..];
  }

  lemma {:induction false} PushStep(entries: Entries, upTo: Sequence, incoming: seq<Message>, i: nat, done: seq<Message>)
    requires i < |incoming|
    ensures incoming[i..][0] == incoming[i] && incoming[i..][1..] == incoming[i + 1..]
    ensures done + PushReplies(entries, upTo, incoming[i..])
         == match incoming[i]
            case WantSequence(s) =>
              if s !in entries || s > upTo then done
              else (done + [GotSequence(s, entries[s].wire)]) + PushReplies(entries, upTo, incoming[i + 1..])
            case _ => done + PushReplies(entries, upTo, incoming[i + 1..])
  {
    assert incoming[i..][1..] == incoming[i + 1..];
  }

  // Delivered lists the sequence numbers of the alerts sent, in order.
  function Sequences(ms: seq<Message>): seq<Sequence> {
    if ms == [] then []
    else (if ms[0].GotSequence? then [ms[0].sequence] else []) + Sequences(ms[1..])
  }

  lemma {:induction false} PushReportsWhatItSent(entries: Entries, upTo: Sequence, incoming: seq<Message>, before: PushResult)
    ensures forall m | m in PushReplies(entries, upTo, incoming) :: m.GotSequence? && Capped(entries, upTo, m)
    ensures Reported(entries, upTo, incoming, before).delivered
         == before.delivered + Sequences(PushReplies(entries, upTo, incoming))
  {
    if incoming != [] {
      var rest := incoming[1..];
      match incoming[0]
      case WantSequence(s) =>
        if s in entries && s <= upTo {
          PushReportsWhatItSent(entries, upTo, rest, PushResult(before.peerLatestBefore, before.delivered + [s]));
          var replies := PushReplies(entries, upTo, rest);
          assert ([GotSequence(s, entries[s].wire)] + replies)[1..] == replies;
        }
      case GotLatest(s, _) => PushReportsWhatItSent(entries, upTo, rest, PushResult(s, before.delivered));
      case _ => PushReportsWhatItSent(entries, upTo, rest, before);
    }
  }

  function Wants(incoming: seq<Message>): seq<Message> {
    if incoming == [] then []
    else (if incoming[0].WantSequence? then [incoming[0]] else []) + Wants(incoming[1..])
  }

  // Requests are answered in order, up to the first for a number that is not stored or above upTo; whatever else
  // the peer says changes nothing of that.
  lemma {:induction false} PushesInOrder(entries: Entries, upTo: Sequence, incoming: seq<Message>)
    ensures var replies, wants := PushReplies(entries, upTo, incoming), Wants(incoming);
      && |replies| <= |wants|
      && (forall k | 0 <= k < |replies| :: Replies(entries, upTo, wants[k], replies[k]))
      && (forall m | m in wants :: m.WantSequence?)
      && (|replies| < |wants| ==> var m := wants[|replies|]; m.sequence !in entries || m.sequence > upTo)
  {
    if incoming != [] {
      PushesInOrder(entries, upTo, incoming[1..]);
      var m, rest := incoming[0], PushReplies(entries, upTo, incoming[1..]);
      if !m.WantSequence? {
        assert Wants(incoming) == [] + Wants(incoming[1..]) == Wants(incoming[1..]);
      } else if m.sequence in entries && m.sequence <= upTo {
        OneMoreServed(entries, upTo, m, Wants(incoming[1..]), rest);
      }
    }
  }

  lemma {:induction false} OneMoreServed(entries: Entries, upTo: Sequence, m: Message, wants: seq<Message>, replies: seq<Message>)
    requires m.WantSequence? && m.sequence in entries && m.sequence <= upTo && |replies| <= |wants|
    requires forall k | 0 <= k < |replies| :: Replies(entries, upTo, wants[k], replies[k])
    ensures var more := [GotSequence(m.sequence, entries[m.sequence].wire)] + replies;
      forall k | 0 <= k < |more| :: Replies(entries, upTo, ([m] + wants)[k], more[k])
  {
  }

  // The peer's own report of where it stood is kept, and the last one counts.
  lemma {:induction false} ReportsPeerLatest(entries: Entries, upTo: Sequence, s: Sequence, data: Bytes, incoming: seq<Message>, before: PushResult)
    ensures var said := [GotLatest(s, data)] + incoming;
      Reported(entries, upTo, said, before) == Reported(entries, upTo, incoming, PushResult(s, before.delivered))
    ensures Wants(incoming) == incoming ==> Reported(entries, upTo, incoming, before).peerLatestBefore == before.peerLatestBefore
  {
    assert ([GotLatest(s, data)] + incoming)[1..] == incoming;
    if Wants(incoming) == incoming { KeepsPeerLatest(entries, upTo, incoming, before); }
  }

  lemma {:induction false} WantsAre(incoming: seq<Message>)
    ensures |Wants(incoming)| <= |incoming| && forall m | m in Wants(incoming) :: m.WantSequence?
  {
    if incoming != [] { WantsAre(incoming[1..]); }
  }

  lemma {:induction false} KeepsPeerLatest(entries: Entries, upTo: Sequence, incoming: seq<Message>, before: PushResult)
    requires Wants(incoming) == incoming
    ensures Reported(entries, upTo, incoming, before).peerLatestBefore == before.peerLatestBefore
  {
    if incoming != [] {
      WantsAre(incoming);
      WantsAre(incoming[1..]);
      assert incoming[0] in Wants(incoming);
      assert Wants(incoming)[1..] == Wants(incoming[1..]);
      var s := incoming[0].sequence;
      if s in entries && s <= upTo {
        KeepsPeerLatest(entries, upTo, incoming[1..], PushResult(before.peerLatestBefore, before.delivered + [s]));
      }
    }
  }

  // ---- a peer that follows the protocol --------------------------------------------------

  // What a peer at `latest` asks when told upTo: latest+1, then, if it gets that, the next one.
  function Requests(entries: Entries, latest: Sequence, upTo: Sequence): seq<Message>
    decreases upTo - latest
  {
    if latest >= upTo then []
    else [WantSequence(latest + 1)] + if latest + 1 in entries then Requests(entries, latest + 1, upTo) else []
  }

  // How far the log goes without a gap from latest, at most to upTo.
  function Unbroken(entries: Entries, latest: Sequence, upTo: Sequence): (n: Sequence)
    ensures latest <= n && (latest <= upTo ==> n <= upTo)
    ensures forall s | latest < s <= n :: s in entries
    ensures n < upTo ==> n + 1 !in entries
    decreases upTo - latest
  {
    if latest >= upTo || latest + 1 !in entries then latest else Unbroken(entries, latest + 1, upTo)
  }

  function Range(lo: int, hi: int): (r: seq<Sequence>)
    requires 0 <= lo && hi < 0x1_0000_0000
    ensures |r| == (if lo <= hi then hi - lo + 1 else 0)
    ensures forall i | 0 <= i < |r| :: r[i] == lo + i
    decreases hi - lo
  {
    if lo > hi then [] else [lo] + Range(lo + 1, hi)
  }

  lemma {:induction false} RequestStep(entries: Entries, latest: Sequence, upTo: Sequence, before: PushResult)
    requires latest < upTo && latest + 1 in entries
    ensures Reported(entries, upTo, Requests(entries, latest, upTo), before)
         == Reported(entries, upTo, Requests(entries, latest + 1, upTo),
                     PushResult(before.peerLatestBefore, before.delivered + [latest + 1]))
  {
    assert Requests(entries, latest, upTo)[1..] == Requests(entries, latest + 1, upTo);
  }

  lemma {:induction false} RangeFrom(done: seq<Sequence>, lo: int, hi: int)
    requires 0 <= lo <= hi < 0x1_0000_0000
    ensures (done + [lo]) + Range(lo + 1, hi) == done + Range(lo, hi)
  {
  }

  lemma {:induction false} NothingMore(entries: Entries, latest: Sequence, upTo: Sequence, before: PushResult)
    requires latest >= upTo || latest + 1 !in entries
    ensures Reported(entries, upTo, Requests(entries, latest, upTo), before) == before
    ensures before.delivered + Range(latest + 1, latest) == before.delivered
  {
  }

  // A push to a peer at `latest` delivers latest+1 and on, up to upTo or the first gap,
  lemma {:induction false} PushDelivers(entries: Entries, latest: Sequence, upTo: Sequence, before: PushResult)
    ensures Reported(entries, upTo, Requests(entries, latest, upTo), before)
         == PushResult(before.peerLatestBefore,
                       before.delivered + Range(latest + 1, Unbroken(entries, latest, upTo)))
    decreases upTo - latest
  {
    if latest < upTo && latest + 1 in entries {
      RequestStep(entries, latest, upTo, before);
      PushDelivers(entries, latest + 1, upTo, PushResult(before.peerLatestBefore, before.delivered + [latest + 1]));
      RangeFrom(before.delivered, latest + 1, Unbroken(entries, latest, upTo));
    } else {
      NothingMore(entries, latest, upTo, before);
    }
  }

  // which is exactly latest+1..upTo when the log holds all of those.
  lemma {:induction false} PushDeliversAll(entries: Entries, latest: Sequence, upTo: Sequence)
    requires latest <= upTo
    ensures Reported(entries, upTo, Requests(entries, latest, upTo), PushResult(0, [])).delivered == Range(latest + 1, upTo)
            <==> forall s | latest < s <= upTo :: s in entries
  {
    PushDelivers(entries, latest, upTo, PushResult(0, []));
    var n := Unbroken(entries, latest, upTo);
    assert [] + Range(latest + 1, n) == Range(latest + 1, n);
    assert |Range(latest + 1, n)| == n - latest && |Range(latest + 1, upTo)| == upTo - latest;
  }

  // The alerts lo+1..hi, as they are sent.
  function Alerts(entries: Entries, lo: Sequence, hi: Sequence): (ms: seq<Message>)
    requires forall s | lo < s <= hi :: s in entries
    ensures |ms| == if lo <= hi then hi - lo else 0
    ensures forall k | 0 <= k < |ms| :: ms[k] == GotSequence(lo + 1 + k, entries[lo + 1 + k].wire)
    decreases hi - lo
  {
    if lo >= hi then [] else [GotSequence(lo + 1, entries[lo + 1].wire)] + Alerts(entries, lo + 1, hi)
  }

  lemma {:induction false} RequestsServed(entries: Entries, latest: Sequence, cap: Sequence)
    ensures ServeAnswers(entries, cap, Requests(entries, latest, cap)) == Alerts(entries, latest, Unbroken(entries, latest, cap))
    decreases cap - latest
  {
    if latest < cap && latest + 1 in entries {
      RequestsServed(entries, latest + 1, cap);
      assert Requests(entries, latest, cap)[1..] == Requests(entries, latest + 1, cap);
    }
  }

  // The sync a peer at `latest` opens: it is told the cap with its bytes and then gets latest+1 and on, up to the
  // cap or the first gap, each with the log's bytes;
  lemma {:induction false} SyncDelivers(entries: Entries, latest: Sequence, cap: Sequence)
    ensures ServeAnswers(entries, cap, [WantLatest] + Requests(entries, latest, cap))
      == [GotLatest(cap, if cap in entries then entries[cap].wire else [])] + Alerts(entries, latest, Unbroken(entries, latest, cap))
  {
    var asked := Requests(entries, latest, cap);
    assert ([WantLatest] + asked)[1..] == asked;
    RequestsServed(entries, latest, cap);
  }

  // which is all of latest+1..cap exactly when the log holds all of those.
  lemma {:induction false} SyncDeliversAll(entries: Entries, latest: Sequence, cap: Sequence)
    requires latest <= cap
    ensures var replies := ServeAnswers(entries, cap, [WantLatest] + Requests(entries, latest, cap));
      && 1 <= |replies| <= 1 + cap - latest
      && (|replies| == 1 + cap - latest <==> forall s | latest < s <= cap :: s in entries)
      && forall k | 1 <= k < |replies| :: latest + k in entries && replies[k] == GotSequence(latest + k, entries[latest + k].wire)
  {
    SyncDelivers(entries, latest, cap);
    var n := Unbroken(entries, latest, cap);
    if n < cap { assert latest < n + 1 <= cap; }
  }

  // A log that holds 1 and 3 of three alerts: a push up to 3 to a peer that has none delivers only 1.
  lemma {:induction false} GapStopsPush(one: Entry, three: Entry)
    ensures var entries := map[1 := one, 3 := three];
            Reported(entries, 3, Requests(entries, 0, 3), PushResult(0, [])).delivered == [1]
  {
    var entries: Entries := map[1 := one, 3 := three];
    PushDelivers(entries, 0, 3, PushResult(0, []));
    assert Unbroken(entries, 0, 3) == 1;
    assert Range(1, 1) == [1];
    assert [] + Range(1, 1) == Range(1, 1);
  }

  // ---- the host --------------------------------------------------------------------------

  datatype Pushed = NotInLog | NoConnection | NoStream | Finished(result: PushResult)

  class Host {
    const log: Log
    var watermarks: map<PeerId, Sequence>
    var defaultWM: Sequence

    constructor (log: Log)
      ensures this.log == log && watermarks == map[] && defaultWM == 0
    {
      this.log := log;
      watermarks, defaultWM := map[], 0;
    }

    method SetDefaultWatermark(s: Sequence)
      modifies this
      ensures defaultWM == s && watermarks == old(watermarks)
    {
      defaultWM := s;
    }

    method SetWatermark(p: PeerId, s: Sequence)
      modifies this
      ensures watermarks == old(watermarks)[p := s] && defaultWM == old(defaultWM)
    {
      watermarks := watermarks[p := s];
    }

    function Watermark(p: PeerId): Sequence
      reads this
    {
      if p in watermarks then watermarks[p] else defaultWM
    }

    // An inbound sync: the cap is read once, when the stream opens.
    method Serve(p: PeerId, incoming: seq<Message>) returns (replies: seq<Message>)
      ensures replies == ServeAnswers(log.entries, Watermark(p), incoming)
      ensures Watermark(p) == if p in watermarks then watermarks[p] else defaultWM
    {
      var wm := Watermark(p);
      replies := [];
      var i := 0;
      while i < |incoming|
        invariant 0 <= i <= |incoming|
        invariant ServeAnswers(log.entries, wm, incoming) == replies + ServeAnswers(log.entries, wm, incoming[i..])
      {
        ServeStep(log.entries, wm, incoming, i, replies);
        match incoming[i] {
          case WantLatest =>
            var wire, _ := log.Wire(wm);
            replies := replies + [GotLatest(wm, wire)];
          case WantSequence(s) =>
            var wire, ok := log.Wire(s);
            if !ok || s > wm {
              return;
            }
            replies := replies + [GotSequence(s, wire)];
          case _ => return;
        }
        i := i + 1;
      }
    }

    // The loop of Push: answer what the peer asks until it stops asking or asks too much.
    method Converse(upTo: Sequence, incoming: seq<Message>) returns (res: PushResult, replies: seq<Message>)
      ensures replies == PushReplies(log.entries, upTo, incoming)
      ensures res == Reported(log.entries, upTo, incoming, PushResult(0, []))
    {
      res, replies := PushResult(0, []), [];
      var i := 0;
      while i < |incoming|
        invariant 0 <= i <= |incoming|
        invariant PushReplies(log.entries, upTo, incoming) == replies + PushReplies(log.entries, upTo, incoming[i..])
        invariant Reported(log.entries, upTo, incoming, PushResult(0, []))
               == Reported(log.entries, upTo, incoming[i..], res)
      {
        PushStep(log.entries, upTo, incoming, i, replies);
        match incoming[i] {
          case WantSequence(s) =>
            var w, found := log.Wire(s);
            if !found || s > upTo {
              return;
            }
            replies := replies + [GotSequence(s, w)];
            res := PushResult(res.peerLatestBefore, res.delivered + [s]);
          case GotLatest(s, _) => res := PushResult(s, res.delivered);
          case _ =>
        }
        i := i + 1;
      }
    }

    // The watermark is raised before the stream is opened and told anything: a push that fails there leaves
    // it raised. In the conversation a failed read or write is the end of the peer's messages.
    method Push(p: PeerId, connects: bool, opens: bool, upTo: Sequence, incoming: seq<Message>)
      returns (r: Pushed, replies: seq<Message>)
      modifies this
      ensures defaultWM == old(defaultWM)
      ensures r.Finished? <==> upTo in log.entries && connects && opens
      ensures r.NotInLog? <==> upTo !in log.entries
      ensures r.NoStream? <==> upTo in log.entries && connects && !opens
      ensures !r.Finished? ==> replies == []
      ensures r.NotInLog? || r.NoConnection? ==> watermarks == old(watermarks)
      ensures r.NoStream? ==> watermarks == old(watermarks)[p := upTo]
      ensures r.Finished? ==>
                && watermarks == old(watermarks)[p := upTo]
                && replies == [GotLatest(upTo, log.entries[upTo].wire)] + PushReplies(log.entries, upTo, incoming)
                && r.result == Reported(log.entries, upTo, incoming, PushResult(0, []))
    {
      var wire, ok := log.Wire(upTo);
      if !ok {
        return NotInLog, [];
      }
      if !connects {
        return NoConnection, [];
      }
      SetWatermark(p, upTo);
      if !opens {
        return NoStream, [];
      }
      var res, answers := Converse(upTo, incoming);
      return Finished(res), [GotLatest(upTo, wire)] + answers;
    }
  }
}
