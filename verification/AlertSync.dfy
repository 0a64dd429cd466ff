/**
 * A fleet of peers synchronising from one publisher (bsv-regtest/alerts/host.go, log.go).
 *
 * Any interleaving of appended alerts, watermark changes, inbound syncs and pushes. A session's
 * replies travel while other things happen: each is fixed when the host sends it and takes effect
 * when the peer reads it. Peers may ask for anything, in any order, over several sessions at once;
 * they accept only the alert after the last one they hold.
 */
module AlertSync {
  import opened Basics
  import opened AlertLog
  import opened AlertHost

  // Alerts are identified by a hash of their bytes; everything below holds for every such hash.
  type Hash = Bytes -> string

  datatype Peer = Peer(latest: nat, store: map<Sequence, Bytes>)

  datatype Session = Session(
    peer: PeerId,
    cap: Sequence,
    push: bool,  // opened by the host
    open: bool,
    flying: seq<Message>,
    sent: seq<Message>
  )

  datatype State = State(
    entries: Entries,
    watermarks: map<PeerId, Sequence>,
    defaultWM: Sequence,
    peers: map<PeerId, Peer>,
    sessions: seq<Session>
  )

  // Peers start at genesis, which every node has locally.
  function Initial(names: set<PeerId>): State {
    State(map[], map[], 0, map p | p in names :: Peer(0, map[]), [])
  }

  datatype Action =
    | Append(alert: Alert, note: string)
    | SetDefault(cap: Sequence)
    | SetMark(p: PeerId, cap: Sequence)
    | OpenSync(p: PeerId)                  // the peer opens a stream
    | OpenPush(p: PeerId, upTo: Sequence)  // the host does
    | Ask(i: nat, m: Message)              // the host reads m on session i and answers
    | Read(i: nat)                         // the peer reads the next reply on session i
    | Close(i: nat)

  function MarkOf(s: State, p: PeerId): Sequence {
    if p in s.watermarks then s.watermarks[p] else s.defaultWM
  }

  // On a push the host ignores everything but requests for a sequence number; those it answers as
  // it does on an inbound sync.
  function Answered(entries: Entries, ses: Session, m: Message): Session {
    if ses.push && !m.WantSequence? then ses
    else
      match ServeAnswer(entries, ses.cap, m)
      case None => ses.(open := false)
      case Some(reply) => Sent(ses, reply)
  }

  function Sent(ses: Session, m: Message): Session {
    ses.(flying := ses.flying + [m], sent := ses.sent + [m])
  }

  function Accepted(p: Peer, m: Message): Peer {
    if m.GotSequence? && m.sequence == p.latest + 1 then Peer(m.sequence, p.store[m.sequence := m.data]) else p
  }

  function Next(s: State, a: Action, hash: Hash): Option<State> {
    match a
    case Append(alert, note) =>
      // Alerts are built before they are appended, and building them sets the hash.
      if alert.hash == hash(alert.wire) then Some(s.(entries := AppendTo(s.entries, alert, note))) else None
    case SetDefault(cap) => Some(s.(defaultWM := cap))
    case SetMark(p, cap) => Some(s.(watermarks := s.watermarks[p := cap]))
    case OpenSync(p) =>
      if p in s.peers then Some(s.(sessions := s.sessions + [Session(p, MarkOf(s, p), false, true, [], [])])) else None
    case OpenPush(p, upTo) =>
      if p in s.peers && upTo in s.entries then
        Some(s.(watermarks := s.watermarks[p := upTo],
                sessions := s.sessions + [Sent(Session(p, upTo, true, true, [], []), GotLatest(upTo, s.entries[upTo].wire))]))
      else None
    case Ask(i, m) =>
      if i < |s.sessions| && s.sessions[i].open then
        Some(s.(sessions := s.sessions[i := Answered(s.entries, s.sessions[i], m)]))
      else None
    case Read(i) =>
      if i < |s.sessions| && s.sessions[i].flying != [] && s.sessions[i].peer in s.peers then
        var ses := s.sessions[i];
        Some(s.(peers := s.peers[ses.peer := Accepted(s.peers[ses.peer], ses.flying[0])],
                sessions := s.sessions[i := ses.(flying := ses.flying[1..])]))
      else None
    case Close(i) =>
      if i < |s.sessions| then Some(s.(sessions := s.sessions[i := s.sessions[i].(open := false)])) else None
  }

  function After(s: State, trace: seq<Action>, hash: Hash): Option<State> {
    if trace == [] then Some(s)
    else
      match After(s, trace[..|trace| - 1], hash)
      case None => None
      case Some(t) => Next(t, trace[|trace| - 1], hash)
  }

  // ---- the invariant ---------------------------------------------------------------------

  // A reply carries no number above the cap, and bytes whose hash is the log's for that number.
  ghost predicate Genuine(entries: Entries, cap: Sequence, m: Message, hash: Hash) {
    match m
    case GotSequence(n, data) => n <= cap && n in entries && hash(data) == entries[n].hash
    case GotLatest(n, _) => n == cap
    case _ => false
  }

  ghost predicate SessionInv(entries: Entries, ses: Session, hash: Hash) {
    && (forall m | m in ses.sent :: Genuine(entries, ses.cap, m, hash))
    && (forall m | m in ses.flying :: Genuine(entries, ses.cap, m, hash))
  }

  // A peer's store is the alerts 1..latest without a gap, each the log's by hash.
  ghost predicate PeerInv(entries: Entries, p: Peer, hash: Hash) {
    && (forall n :: n in p.store <==> 1 <= n <= p.latest)
    && p.latest < 0x1_0000_0000
    && forall n | n in p.store :: n in entries && hash(p.store[n]) == entries[n].hash
  }

  ghost predicate LogInv(entries: Entries, hash: Hash) {
    Indexed(entries) && forall n | n in entries :: entries[n].hash == hash(entries[n].wire)
  }

  // What a peer holds, some session of its own was allowed to tell it.
  ghost predicate Allowed(s: State, p: PeerId, n: nat) {
    n == 0 || exists i :: 0 <= i < |s.sessions| && s.sessions[i].peer == p && n <= s.sessions[i].cap
  }

  ghost predicate Inv(s: State, hash: Hash) {
    && LogInv(s.entries, hash)
    && (forall i | 0 <= i < |s.sessions| :: SessionInv(s.entries, s.sessions[i], hash))
    && (forall p | p in s.peers :: PeerInv(s.entries, s.peers[p], hash) && Allowed(s, p, s.peers[p].latest))
  }

  lemma {:induction false} AppendKeepsInv(s: State, alert: Alert, note: string, hash: Hash)
    requires Inv(s, hash) && alert.hash == hash(alert.wire)
    ensures Inv(s.(entries := AppendTo(s.entries, alert, note)), hash)
  {
    var t := s.(entries := AppendTo(s.entries, alert, note));
    forall n | n in s.entries ensures n in t.entries && t.entries[n].hash == s.entries[n].hash {
      HashKept(s.entries, alert, note, n);
    }
    forall p | p in t.peers ensures Allowed(t, p, t.peers[p].latest) {
      assert Allowed(s, p, s.peers[p].latest);
    }
  }

  // Changing one session, or adding one, keeps what peers were allowed.
  lemma {:induction false} SessionsKeepAllowed(s: State, t: State, p: PeerId, n: nat)
    requires Allowed(s, p, n) && |s.sessions| <= |t.sessions|
    requires forall i | 0 <= i < |s.sessions| ::
               t.sessions[i].peer == s.sessions[i].peer && t.sessions[i].cap == s.sessions[i].cap
    ensures Allowed(t, p, n)
  {
    if n != 0 {
      var i :| 0 <= i < |s.sessions| && s.sessions[i].peer == p && n <= s.sessions[i].cap;
      assert t.sessions[i].peer == p;
    }
  }

  lemma {:induction false} SessionsKeepInv(s: State, t: State, hash: Hash)
    requires Inv(s, hash) && t.entries == s.entries && t.peers == s.peers && |s.sessions| <= |t.sessions|
    requires forall i | 0 <= i < |s.sessions| ::
               t.sessions[i].peer == s.sessions[i].peer && t.sessions[i].cap == s.sessions[i].cap
    requires forall i | 0 <= i < |t.sessions| :: SessionInv(s.entries, t.sessions[i], hash)
    ensures Inv(t, hash)
  {
    forall p | p in t.peers ensures Allowed(t, p, t.peers[p].latest) {
      SessionsKeepAllowed(s, t, p, s.peers[p].latest);
    }
  }

  lemma {:induction false} ReadKeepsInv(s: State, i: nat, hash: Hash)
    requires Inv(s, hash) && Next(s, Read(i), hash).Some?
    ensures Inv(Next(s, Read(i), hash).value, hash)
  {
    var t, ses := Next(s, Read(i), hash).value, s.sessions[i];
    assert SessionInv(s.entries, ses, hash);
    assert Genuine(s.entries, ses.cap, ses.flying[0], hash);
    forall p | p in t.peers
      ensures PeerInv(t.entries, t.peers[p], hash) && Allowed(t, p, t.peers[p].latest)
    {
      if t.peers[p] == s.peers[p] {
        SessionsKeepAllowed(s, t, p, s.peers[p].latest);
      } else {
        assert t.sessions[i].peer == p && t.peers[p].latest <= t.sessions[i].cap;
      }
    }
  }

  lemma {:induction false} StepKeepsInv(s: State, a: Action, hash: Hash)
    requires Inv(s, hash) && Next(s, a, hash).Some?
    ensures Inv(Next(s, a, hash).value, hash)
  {
    var t := Next(s, a, hash).value;
    match a
    case Append(alert, note) => AppendKeepsInv(s, alert, note, hash);
    case Read(i) => ReadKeepsInv(s, i, hash);
    case Ask(i, m) => AskKeepsInv(s, i, m, hash);
    case OpenSync(p) => OpenKeepsInv(s, a, hash);
    case OpenPush(p, upTo) => OpenKeepsInv(s, a, hash);
    case _ => SessionsKeepInv(s, t, hash);
  }

  lemma {:induction false} AskKeepsInv(s: State, i: nat, m: Message, hash: Hash)
    requires Inv(s, hash) && Next(s, Ask(i, m), hash).Some?
    ensures Inv(Next(s, Ask(i, m), hash).value, hash)
  {
    var t := Next(s, Ask(i, m), hash).value;
    AnswerIsGenuine(s.entries, s.sessions[i], m, hash);
    SessionsKeepInv(s, t, hash);
  }

  lemma {:induction false} AnswerIsGenuine(entries: Entries, ses: Session, m: Message, hash: Hash)
    requires LogInv(entries, hash) && SessionInv(entries, ses, hash)
    ensures var next := Answered(entries, ses, m);
      SessionInv(entries, next, hash) && next.peer == ses.peer && next.cap == ses.cap
  {
  }

  lemma {:induction false} OpenKeepsInv(s: State, a: Action, hash: Hash)
    requires Inv(s, hash) && (a.OpenSync? || a.OpenPush?) && Next(s, a, hash).Some?
    ensures Inv(Next(s, a, hash).value, hash)
  {
    SessionsKeepInv(s, Next(s, a, hash).value, hash);
  }

  lemma {:induction false} TraceKeepsInv(s: State, trace: seq<Action>, hash: Hash)
    requires Inv(s, hash) && After(s, trace, hash).Some?
    ensures Inv(After(s, trace, hash).value, hash)
  {
    if trace != [] {
      var n := |trace| - 1;
      TraceKeepsInv(s, trace[..n], hash);
      StepKeepsInv(After(s, trace[..n], hash).value, trace[n], hash);
    }
  }

  // ---- the theorems ----------------------------------------------------------------------

  ghost predicate Reachable(s: State, hash: Hash) {
    exists names, trace :: After(Initial(names), trace, hash) == Some(s)
  }

  lemma {:induction false} ReachableInv(s: State, hash: Hash)
    requires Reachable(s, hash)
    ensures Inv(s, hash)
  {
    var names, trace :| After(Initial(names), trace, hash) == Some(s);
    TraceKeepsInv(Initial(names), trace, hash);
  }

  // Nothing above a session's cap is ever sent on it.
  lemma {:induction false} NothingAboveTheCap(s: State, i: nat, m: Message, hash: Hash)
    requires Reachable(s, hash) && i < |s.sessions| && m in s.sessions[i].sent
    ensures (m.GotSequence? || m.GotLatest?) && m.sequence <= s.sessions[i].cap
  {
    ReachableInv(s, hash);
    assert SessionInv(s.entries, s.sessions[i], hash);
    assert Genuine(s.entries, s.sessions[i].cap, m, hash);
  }

  // Each peer holds an unbroken run of alerts from the first, the log's by hash, and none that no
  // session of its own could tell it.
  lemma {:induction false} StoresArePrefixes(s: State, p: PeerId, n: Sequence, hash: Hash)
    requires Reachable(s, hash) && p in s.peers
    ensures n in s.peers[p].store <==> 1 <= n <= s.peers[p].latest
    ensures n in s.peers[p].store ==>
              && n in s.entries && hash(s.peers[p].store[n]) == s.entries[n].hash
              && exists i :: 0 <= i < |s.sessions| && s.sessions[i].peer == p && n <= s.sessions[i].cap
  {
    ReachableInv(s, hash);
    if n in s.peers[p].store {
      assert Allowed(s, p, s.peers[p].latest);
      var i :| 0 <= i < |s.sessions| && s.sessions[i].peer == p && s.peers[p].latest <= s.sessions[i].cap;
      assert n <= s.sessions[i].cap;
    }
  }

  // The fleet agrees: wherever two peers both hold an alert, it is the same one by hash.
  lemma {:induction false} FleetAgrees(s: State, p: PeerId, q: PeerId, n: Sequence, hash: Hash)
    requires Reachable(s, hash) && p in s.peers && q in s.peers
    requires n in s.peers[p].store && n in s.peers[q].store
    ensures hash(s.peers[p].store[n]) == hash(s.peers[q].store[n])
  {
    StoresArePrefixes(s, p, n, hash);
    StoresArePrefixes(s, q, n, hash);
  }

  // Reading is the only step that moves a peer, and it moves it by one alert at most.
  lemma {:induction false} PeersMoveByOne(s: State, a: Action, p: PeerId, hash: Hash)
    requires p in s.peers
    ensures match Next(s, a, hash)
            case None => true
            case Some(t) =>
              && p in t.peers
              && s.peers[p].latest <= t.peers[p].latest <= s.peers[p].latest + 1
              && (!a.Read? ==> t.peers[p] == s.peers[p])
              && forall n | n in s.peers[p].store && n <= s.peers[p].latest ::
                   n in t.peers[p].store && t.peers[p].store[n] == s.peers[p].store[n]
  {
  }

  // ---- caps and what a sync brings -------------------------------------------------------

  // The mark last set for a peer, by hand or by a push to it, as the trace tells it; None if none was.
  function LastMark(trace: seq<Action>, p: PeerId): Option<Sequence> {
    if trace == [] then None
    else
      match trace[|trace| - 1]
      case SetMark(q, cap) => if q == p then Some(cap) else LastMark(trace[..|trace| - 1], p)
      case OpenPush(q, upTo) => if q == p then Some(upTo) else LastMark(trace[..|trace| - 1], p)
      case _ => LastMark(trace[..|trace| - 1], p)
  }

  function LastDefault(trace: seq<Action>): Sequence {
    if trace == [] then 0
    else if trace[|trace| - 1].SetDefault? then trace[|trace| - 1].cap
    else LastDefault(trace[..|trace| - 1])
  }

  // A peer that opens a sync is served up to the mark last set for it, or else the default last set.
  lemma {:induction false} SyncIsCappedByMark(names: set<PeerId>, trace: seq<Action>, s: State, p: PeerId, hash: Hash)
    requires After(Initial(names), trace, hash) == Some(s)
    ensures s.defaultWM == LastDefault(trace)
    ensures if p in s.watermarks then LastMark(trace, p) == Some(s.watermarks[p]) else LastMark(trace, p) == None
    ensures p in s.peers ==>
      && Next(s, OpenSync(p), hash).Some?
      && var t := Next(s, OpenSync(p), hash).value;
        && |t.sessions| == |s.sessions| + 1
        && t.sessions[|s.sessions|].peer == p && t.sessions[|s.sessions|].open && !t.sessions[|s.sessions|].push
        && t.sessions[|s.sessions|].cap == match LastMark(trace, p) case Some(cap) => cap case None => LastDefault(trace)
  {
    if trace != [] {
      var before := After(Initial(names), trace[..|trace| - 1], hash).value;
      SyncIsCappedByMark(names, trace[..|trace| - 1], before, p, hash);
    }
  }

  // What reading these replies makes of a peer.
  function ReadAll(p: Peer, ms: seq<Message>): Peer
    decreases |ms|
  {
    if ms == [] then p else ReadAll(Accepted(p, ms[0]), ms[1..])
  }

  lemma {:induction false} AlertsRead(entries: Entries, p: Peer, end: Sequence)
    requires p.latest <= end && forall s | p.latest < s <= end :: s in entries
    ensures var q := ReadAll(p, Alerts(entries, p.latest, end));
      && q.latest == end
      && (forall s: Sequence | p.latest < s <= end :: s in q.store && q.store[s] == entries[s].wire)
      && forall s: Sequence | s in p.store && s <= p.latest :: s in q.store && q.store[s] == p.store[s]
    decreases end - p.latest
  {
    if p.latest < end {
      var n: Sequence := p.latest + 1;
      var next := Peer(n, p.store[n := entries[n].wire]);
      var ms := Alerts(entries, p.latest, end);
      assert Accepted(p, ms[0]) == next && ms[1..] == Alerts(entries, n, end);
      AlertsRead(entries, next, end);
    }
  }

  // A peer that carries a sync through ends with every alert up to the cap, or up to the first gap, byte for byte
  // the log's, and with what it had before.
  lemma {:induction false} SyncBringsUpToDate(entries: Entries, p: Peer, cap: Sequence)
    requires p.latest <= cap
    ensures var q := ReadAll(p, ServeAnswers(entries, cap, [WantLatest] + Requests(entries, p.latest, cap)));
      && p.latest <= q.latest <= cap && (q.latest < cap ==> q.latest + 1 !in entries)
      && (forall s: Sequence | p.latest < s <= q.latest :: s in entries && s in q.store && q.store[s] == entries[s].wire)
      && forall s: Sequence | s in p.store && s <= p.latest :: s in q.store && q.store[s] == p.store[s]
  {
    var end := Unbroken(entries, p.latest, cap);
    SyncDelivers(entries, p.latest, cap);
    AlertsRead(entries, p, end);
    var alerts := Alerts(entries, p.latest, end);
    var told := GotLatest(cap, if cap in entries then entries[cap].wire else []);
    assert ([told] + alerts)[1..] == alerts;
    if end < cap { assert p.latest < end + 1 <= cap; }
  }

  // A closed session stays closed, and nothing more is sent on it.
  lemma {:induction false} ClosedIsSilent(s: State, a: Action, i: nat, hash: Hash)
    requires i < |s.sessions| && Next(s, a, hash).Some?
    ensures var t := Next(s, a, hash).value;
      && i < |t.sessions|
      && (a == Close(i) ==> !t.sessions[i].open)
      && (!s.sessions[i].open ==> !t.sessions[i].open && t.sessions[i].sent == s.sessions[i].sent)
      && t.sessions[i].cap == s.sessions[i].cap && t.sessions[i].peer == s.sessions[i].peer
  {
  }

  // ---- sessions and the host's loops -----------------------------------------------------

  // A session on which the host reads these messages one after the other.
  function AnsweredAll(entries: Entries, ses: Session, incoming: seq<Message>): Session
    decreases |incoming|
  {
    if incoming == [] || !ses.open then ses
    else AnsweredAll(entries, Answered(entries, ses, incoming[0]), incoming[1..])
  }

  // What is sent on it is what the loops of the host send, serving a peer or pushing to one.
  lemma {:induction false} SessionIsConversation(entries: Entries, ses: Session, incoming: seq<Message>)
    requires ses.open
    ensures AnsweredAll(entries, ses, incoming).sent
         == ses.sent + if ses.push then PushReplies(entries, ses.cap, incoming) else ServeAnswers(entries, ses.cap, incoming)
    decreases |incoming|
  {
    if incoming != [] {
      var next := Answered(entries, ses, incoming[0]);
      if next.open {
        SessionIsConversation(entries, next, incoming[1..]);
      }
    }
  }
}
