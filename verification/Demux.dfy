/**
 * Container log bytes as the chaos runtime reads them (internal/chaos/runtime.go): the engine's
 * framed stream is unframed, and a read that hit its byte limit is cut back to whole lines.
 */
module Demux {

  type Byte = n: nat | n < 256

  const NEWLINE: Byte := 10

  // ---- unframing -------------------------------------------------------------------------

  // Stream kind, three zero bytes, big-endian payload length.
  predicate IsHeader(b: seq<Byte>) { |b| >= 8 && b[0] <= 2 && b[1] == 0 && b[2] == 0 && b[3] == 0 }

  function PayloadLength(b: seq<Byte>): nat
    requires |b| >= 8
  {
    var high: nat, mid: nat, low: nat := b[4], b[5], b[6];
    high * 0x100_0000 + mid * 0x1_0000 + low * 0x100 + b[7]
  }

  // The payload bytes at hand, which a cut can have made fewer than the header says.
  function AtHand(b: seq<Byte>): (n: nat)
    requires |b| >= 8
    ensures n <= |b| - 8
  {
    if PayloadLength(b) > |b| - 8 then |b| - 8 else PayloadLength(b)
  }

  // Frames lose their headers; what does not begin with a header is passed on as it is.
  function Unframe(b: seq<Byte>): (r: seq<Byte>)
    ensures |r| <= |b|
    ensures !IsHeader(b) ==> r == b
    decreases |b|
  {
    if !IsHeader(b) then b else b[8..8 + AtHand(b)] + Unframe(b[8 + AtHand(b)..])
  }

  // A body is passed on as it is unless it begins with eight bytes, a kind up to 2 and three zeros first.
  lemma {:induction false} NoHeaderIsKept(b: seq<Byte>)
    requires |b| < 8 || b[0] > 2 || b[1] != 0 || b[2] != 0 || b[3] != 0
    ensures Unframe(b) == b
  {
  }

  // demuxLogStream
  method DemuxLogStream(body: seq<Byte>) returns (text: seq<Byte>)
    ensures text == Unframe(body)
  {
    var b, out := body, [];
    while |b| > 0
      invariant Unframe(body) == out + Unframe(b)
      decreases |b|
    {
      if |b| < 8 || b[0] > 2 || b[1] != 0 || b[2] != 0 || b[3] != 0 {
        if out == [] { return b; }
        return out + b;
      }
      var n := PayloadLength(b);
      ghost var was := b;
      b := b[8..];
      if n > |b| { n := |b|; }
      UnframeStep(was, b, n);
      Assoc(out, b[..n], Unframe(b[n..]));
      out := out + b[..n];
      b := b[n..];
    }
    text := out;
  }

  lemma {:induction false} UnframeStep(b: seq<Byte>, rest: seq<Byte>, n: nat)
    requires IsHeader(b) && rest == b[8..] && n == AtHand(b)
    ensures Unframe(b) == rest[..n] + Unframe(rest[n..])
  {
    assert rest[..n] == b[8..8 + n] && rest[n..] == b[8 + n..];
  }

  lemma {:induction false} Assoc(a: seq<Byte>, b: seq<Byte>, c: seq<Byte>)
    ensures a + (b + c) == (a + b) + c
  {
  }

  // ---- framing, as the container engine does it ------------------------------------------

  datatype Frame = Frame(kind: Byte, payload: seq<Byte>)

  predicate Sendable(f: Frame) { f.kind <= 2 && |f.payload| < 0x1_0000_0000 }

  function Header(f: Frame): (h: seq<Byte>)
    requires Sendable(f)
    ensures |h| == 8 && IsHeader(h) && PayloadLength(h) == |f.payload|
  {
    LengthBytes(|f.payload|);
    [f.kind, 0, 0, 0, |f.payload| / 0x100_0000, |f.payload| / 0x1_0000 % 256, |f.payload| / 0x100 % 256, |f.payload| % 256]
  }

  lemma {:induction false} LengthBytes(n: nat)
    requires n < 0x1_0000_0000
    ensures n / 0x100_0000 < 256
    ensures n == n / 0x100_0000 * 0x100_0000 + n / 0x1_0000 % 256 * 0x1_0000 + n / 0x100 % 256 * 0x100 + n % 256
  {
    var a, b := n / 0x100, n / 0x1_0000;
    assert b == a / 0x100 && n / 0x100_0000 == b / 0x100;
  }

  ghost predicate AllSendable(frames: seq<Frame>) { forall i | 0 <= i < |frames| :: Sendable(frames[i]) }

  function Stream(frames: seq<Frame>): seq<Byte>
    requires AllSendable(frames)
  {
    if frames == [] then [] else Header(frames[0]) + frames[0].payload + Stream(frames[1..])
  }

  function Payloads(frames: seq<Frame>): seq<Byte> {
    if frames == [] then [] else frames[0].payload + Payloads(frames[1..])
  }

  lemma {:induction false} UnframeFrame(f: Frame, rest: seq<Byte>)
    requires Sendable(f)
    ensures Unframe(Header(f) + f.payload + rest) == f.payload + Unframe(rest)
  {
    var b, h, n := Header(f) + f.payload + rest, Header(f), |f.payload|;
    assert forall i | 0 <= i < 8 :: b[i] == h[i];
    assert PayloadLength(b) == PayloadLength(h);
    assert b[8..8 + n] == f.payload && b[8 + n..] == rest;
  }

  // Unframing inverts framing, whatever follows the frames.
  lemma {:induction false} UnframeStream(frames: seq<Frame>, rest: seq<Byte>)
    requires AllSendable(frames)
    ensures Unframe(Stream(frames) + rest) == Payloads(frames) + Unframe(rest)
  {
    if frames == [] {
      assert Stream(frames) + rest == rest;
    } else {
      var f, tail := frames[0], Stream(frames[1..]);
      UnframeStream(frames[1..], rest);
      UnframeFrame(f, tail + rest);
      Assoc(Header(f) + f.payload, tail, rest);
      Assoc(f.payload, Payloads(frames[1..]), Unframe(rest));
    }
  }

  // ---- a stream cut short ----------------------------------------------------------------

  function Size(f: Frame): nat { 8 + |f.payload| }

  // The payload bytes among the first k bytes of a stream.
  function Kept(frames: seq<Frame>, k: nat): seq<Byte> {
    if frames == [] then []
    else if k >= Size(frames[0]) then frames[0].payload + Kept(frames[1..], k - Size(frames[0]))
    else if k >= 8 then frames[0].payload[..k - 8]
    else []
  }

  // The bytes of a header that the cut went through.
  function Leaked(frames: seq<Frame>, k: nat): seq<Byte>
    requires AllSendable(frames)
  {
    if frames == [] then []
    else if k >= Size(frames[0]) then Leaked(frames[1..], k - Size(frames[0]))
    else if k >= 8 then []
    else Header(frames[0])[..k]
  }

  lemma {:induction false} KeptIsPrefix(frames: seq<Frame>, k: nat)
    ensures Kept(frames, k) <= Payloads(frames)
  {
    if frames != [] && k >= Size(frames[0]) { KeptIsPrefix(frames[1..], k - Size(frames[0])); }
  }

  // A cut stream gives the payload bytes before the cut and the piece of a header it went through.
  lemma {:induction false} CutStream(frames: seq<Frame>, k: nat)
    requires AllSendable(frames) && k <= |Stream(frames)|
    ensures Unframe(Stream(frames)[..k]) == Kept(frames, k) + Leaked(frames, k)
  {
    if frames != [] {
      var f, rest := frames[0], Stream(frames[1..]);
      if k >= Size(f) {
        var left := k - Size(f);
        CutStream(frames[1..], left);
        UnframeFrame(f, rest[..left]);
        TakePast(Header(f) + f.payload, rest, k, left);
        Assoc(f.payload, Kept(frames[1..], left), Leaked(frames[1..], left));
      } else {
        CutFrame(f, k);
        TakeWithin(Header(f) + f.payload, rest, k);
      }
    }
  }

  lemma {:induction false} TakePast(a: seq<Byte>, b: seq<Byte>, k: nat, left: nat)
    requires k == |a| + left && left <= |b|
    ensures (a + b)[..k] == a + b[..left]
  {
  }

  lemma {:induction false} TakeWithin(a: seq<Byte>, b: seq<Byte>, k: nat)
    requires k <= |a|
    ensures (a + b)[..k] == a[..k]
  {
  }

  lemma {:induction false} CutFrame(f: Frame, k: nat)
    requires Sendable(f) && k < Size(f)
    ensures Unframe((Header(f) + f.payload)[..k]) == if k >= 8 then f.payload[..k - 8] else Header(f)[..k]
  {
    var b, h := (Header(f) + f.payload)[..k], Header(f);
    if k >= 8 {
      assert forall i | 0 <= i < 8 :: b[i] == h[i];
      assert PayloadLength(b) == PayloadLength(h);
      assert b[8..] == f.payload[..k - 8] && b[8 + AtHand(b)..] == [];
    } else {
      assert b == h[..k];
    }
  }

  // ---- whole lines -----------------------------------------------------------------------

  function LastNewline(s: seq<Byte>): (i: int)
    ensures -1 <= i < |s|
    ensures i >= 0 ==> s[i] == NEWLINE
    ensures forall j | i < j < |s| :: s[j] != NEWLINE
  {
    if s == [] then -1
    else if s[|s| - 1] == NEWLINE then |s| - 1
    else LastNewline(s[..|s| - 1])
  }

  // A text with a newline up to its last newline, any other as it is.
  function WholeLines(s: seq<Byte>): (r: seq<Byte>)
    ensures r <= s
    ensures NEWLINE in s ==> r != [] && r[|r| - 1] == NEWLINE && NEWLINE !in s[|r|..]
    ensures NEWLINE !in s ==> r == s
  {
    if LastNewline(s) >= 0 then s[..LastNewline(s) + 1] else s
  }

  // Logs: at most max bytes of the body are read.
  method ReadLogs(body: seq<Byte>, max: nat) returns (text: seq<Byte>, truncated: bool)
    ensures truncated == (|body| > max)
    ensures text == if truncated then WholeLines(Unframe(body[..max])) else Unframe(body)
  {
    truncated := |body| > max;
    var b := if truncated then body[..max] else body;
    text := DemuxLogStream(b);
    if truncated {
      var i := LastNewline(text);
      if i >= 0 { text := text[..i + 1]; }
    }
  }

  // A read that hit its limit gives nothing but payload, a prefix of the full text, exactly when the cut
  // went through no header, or the piece of header it went through holds no newline and the payload
  // before it does.
  lemma {:induction false} TruncatedIsPayload(frames: seq<Frame>, max: nat)
    requires AllSendable(frames) && max <= |Stream(frames)|
    ensures var text := WholeLines(Unframe(Stream(frames)[..max]));
      var clean := Leaked(frames, max) == [] || (NEWLINE !in Leaked(frames, max) && NEWLINE in Kept(frames, max));
      && (clean <==> |text| <= |Kept(frames, max)|)
      && (clean ==> text == WholeLines(Kept(frames, max)) && text <= Payloads(frames))
  {
    CutStream(frames, max);
    KeptIsPrefix(frames, max);
    LinesOf(Kept(frames, max), Leaked(frames, max));
  }

  lemma {:induction false} LinesOf(a: seq<Byte>, b: seq<Byte>)
    ensures b == [] ==> WholeLines(a + b) == WholeLines(a)
    ensures NEWLINE !in b && NEWLINE in a ==> WholeLines(a + b) == WholeLines(a)
    ensures b != [] && (NEWLINE in b || NEWLINE !in a) ==> |WholeLines(a + b)| > |a|
  {
    if b == [] {
      assert a + b == a;
    } else {
      var s := a + b;
      assert forall j | 0 <= j < |s| :: s[j] == if j < |a| then a[j] else b[j - |a|];
      if NEWLINE in b {
        var j :| 0 <= j < |b| && b[j] == NEWLINE;
        assert s[|a| + j] == NEWLINE;
      }
    }
  }

  // A header piece can hold a newline: the length 2560 is the bytes 0, 0, 10, 0.
  lemma {:induction false} LeakedNewline(payload: seq<Byte>)
    requires |payload| == 2560
    ensures var frames := [Frame(1, [65, NEWLINE]), Frame(1, payload)];
      && AllSendable(frames) && Leaked(frames, 17) == [1, 0, 0, 0, 0, 0, NEWLINE]
      && Kept(frames, 17) == [65, NEWLINE]
      && WholeLines(Kept(frames, 17) + Leaked(frames, 17)) == [65, NEWLINE, 1, 0, 0, 0, 0, 0, NEWLINE]
  {
    var frames := [Frame(1, [65, NEWLINE]), Frame(1, payload)];
    assert frames[1..] == [Frame(1, payload)];
    assert Header(frames[1]) == [1, 0, 0, 0, 0, 0, 10, 0];
  }
}
