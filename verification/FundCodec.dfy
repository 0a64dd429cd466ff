/**
 * The payload of freeze and unfreeze alerts (bsv-regtest/alerts/wire.go): records of 57 bytes, the
 * transaction id as it is read, then three little-endian 64-bit numbers and a flag. Hexadecimal is
 * Base 16 of RFC 4648, section 8, read in either case and written in lower case.
 */
module FundCodec {
  import opened Basics

  type Byte = n: nat | n < 256

  const TWO_32: nat := 0x1_0000_0000
  const TWO_64: nat := 0x1_0000_0000_0000_0000
  const RECORD: nat := 57

  type Uint32 = n: nat | n < TWO_32
  type Uint64 = n: nat | n < TWO_64

  datatype Fund = Fund(txid: string, vout: Uint32, start: Uint64, stop: Uint64, expires: bool)

  // ---- hexadecimal -----------------------------------------------------------------------

  function DigitOf(n: nat): char
    requires n < 16
  {
    if n < 10 then '0' + n as char else 'a' + (n - 10) as char
  }

  function ValueOf(c: char): Option<nat> {
    if '0' <= c <= '9' then Some((c - '0') as nat)
    else if 'a' <= c <= 'f' then Some(10 + (c - 'a') as nat)
    else if 'A' <= c <= 'F' then Some(10 + (c - 'A') as nat)
    else None
  }

  predicate IsHex(s: string) { forall i | 0 <= i < |s| :: ValueOf(s[i]).Some? }

  predicate IsLower(s: string) { forall i | 0 <= i < |s| :: !('A' <= s[i] <= 'F') }

  // hex.DecodeString
  function FromHex(s: string): Option<seq<Byte>> {
    if s == [] then Some([])
    else if |s| == 1 || ValueOf(s[0]).None? || ValueOf(s[1]).None? then None
    else
      match FromHex(s[2..])
      case Some(rest) => Some([Joined(ValueOf(s[0]).value, ValueOf(s[1]).value)] + rest)
      case None => None
  }

  function Joined(high: nat, low: nat): nat { 16 * high + low }

  // hex.EncodeToString
  function ToHex(b: seq<Byte>): (s: string)
    ensures |s| == 2 * |b|
  {
    if b == [] then [] else [DigitOf(b[0] / 16), DigitOf(b[0] % 16)] + ToHex(b[1..])
  }

  function LowerChar(c: char): char { if 'A' <= c <= 'F' then 'a' + (c - 'A') else c }

  function LowerCase(s: string): (t: string)
    ensures |t| == |s| && (t == s <==> IsLower(s))
  {
    if s == [] then [] else [LowerChar(s[0])] + LowerCase(s[1..])
  }

  lemma {:induction false} DigitHasValue(n: nat)
    requires n < 16
    ensures ValueOf(DigitOf(n)) == Some(n) && !('A' <= DigitOf(n) <= 'F')
  {
  }

  // The sixteen digits, and what each of them is worth in either case.
  lemma {:induction false} DigitsAre(n: nat, c: char)
    requires n < 16
    ensures DigitOf(n) == "0123456789abcdef"[n]
    ensures ValueOf("0123456789abcdef"[n]) == ValueOf("0123456789ABCDEF"[n]) == Some(n)
    ensures ValueOf(c).Some? <==> c in "0123456789abcdefABCDEF"
  {
  }

  // The first of two digits is the higher one.
  lemma {:induction false} HighDigitFirst(high: nat, low: nat)
    requires high < 16 && low < 16
    ensures ToHex([16 * high + low]) == [DigitOf(high), DigitOf(low)]
    ensures FromHex([DigitOf(high), DigitOf(low)]) == Some([16 * high + low])
  {
    var b: Byte, s := 16 * high + low, [DigitOf(high), DigitOf(low)];
    DigitHasValue(high);
    DigitHasValue(low);
    assert [b][1..] == [] && b / 16 == high && b % 16 == low;
    assert s[2..] == [] && FromHex(s[2..]) == Some([]);
    assert [Joined(high, low)] + [] == [b];
  }

  lemma {:induction false} HexOfBytes(b: seq<Byte>)
    ensures FromHex(ToHex(b)) == Some(b) && IsLower(ToHex(b))
  {
    if b != [] {
      var s := ToHex(b);
      HexOfBytes(b[1..]);
      DigitHasValue(b[0] / 16);
      DigitHasValue(b[0] % 16);
      assert s[2..] == ToHex(b[1..]);
      assert forall i | 2 <= i < |s| :: s[i] == s[2..][i - 2];
      assert Joined(b[0] / 16, b[0] % 16) == b[0];
      assert b == [b[0]] + b[1..];
    }
  }

  // Decoding takes any even number of digits, in either case; encoding gives them back in lower case.
  lemma {:induction false} BytesOfHex(s: string)
    ensures FromHex(s).Some? <==> |s| % 2 == 0 && IsHex(s)
    ensures FromHex(s).Some? ==> |FromHex(s).value| * 2 == |s|
  {
    if |s| >= 2 {
      BytesOfHex(s[2..]);
      HexFrom(s);
    }
  }

  lemma {:induction false} HexIsLower(s: string)
    requires FromHex(s).Some?
    ensures ToHex(FromHex(s).value) == LowerCase(s)
  {
    if |s| >= 2 {
      HexIsLower(s[2..]);
      HexAgain(s, FromHex(s[2..]).value);
    }
  }

  lemma {:induction false} HexFrom(s: string)
    requires |s| >= 2
    ensures IsHex(s) <==> ValueOf(s[0]).Some? && ValueOf(s[1]).Some? && IsHex(s[2..])
  {
    assert forall i | 2 <= i < |s| :: s[i] == s[2..][i - 2];
  }

  lemma {:induction false} HexAgain(s: string, rest: seq<Byte>)
    requires |s| >= 2 && ValueOf(s[0]).Some? && ValueOf(s[1]).Some? && ToHex(rest) == LowerCase(s[2..])
    ensures ToHex([Joined(ValueOf(s[0]).value, ValueOf(s[1]).value)] + rest) == LowerCase(s)
  {
    var b: Byte := Joined(ValueOf(s[0]).value, ValueOf(s[1]).value);
    DigitsOf(s[0], s[1]);
    assert ([b] + rest)[1..] == rest;
    assert s[1..][1..] == s[2..];
    assert LowerCase(s) == [LowerChar(s[0])] + ([LowerChar(s[1])] + LowerCase(s[2..]));
  }

  lemma {:induction false} DigitsOf(high: char, low: char)
    requires ValueOf(high).Some? && ValueOf(low).Some?
    ensures var b := Joined(ValueOf(high).value, ValueOf(low).value);
      b / 16 < 16 && DigitOf(b / 16) == LowerChar(high) && DigitOf(b % 16) == LowerChar(low)
  {
  }

  // ---- little-endian numbers -------------------------------------------------------------

  function Pow256(k: nat): nat { if k == 0 then 1 else 256 * Pow256(k - 1) }

  function ToLittle(n: nat, k: nat): (b: seq<Byte>)
    ensures |b| == k
  {
    if k == 0 then [] else [n % 256] + ToLittle(n / 256, k - 1)
  }

  function FromLittle(b: seq<Byte>): (n: nat)
    ensures n < Pow256(|b|)
  {
    if b == [] then 0
    else
      var first: nat := b[0];
      first + 256 * FromLittle(b[1..])
  }

  lemma {:induction false} LittleOfNumber(n: nat, k: nat)
    requires n < Pow256(k)
    ensures FromLittle(ToLittle(n, k)) == n
  {
    if k > 0 {
      LittleOfNumber(n / 256, k - 1);
      assert ToLittle(n, k)[1..] == ToLittle(n / 256, k - 1);
    }
  }

  lemma {:induction false} NumberOfLittle(b: seq<Byte>)
    ensures ToLittle(FromLittle(b), |b|) == b
  {
    if b != [] {
      NumberOfLittle(b[1..]);
      LowByte(b[0], FromLittle(b[1..]));
    }
  }

  // A number without its i lowest bytes.
  function Above(n: nat, i: nat): nat { if i == 0 then n else Above(n, i - 1) / 256 }

  lemma {:induction false} AboveFirst(n: nat, i: nat)
    ensures Above(n, i + 1) == Above(n / 256, i)
  {
    if i > 0 { AboveFirst(n, i - 1); }
  }

  // The lowest byte comes first: byte i is the lowest of what is left without those before it.
  lemma {:induction false} LittleByte(n: nat, k: nat, i: nat)
    requires i < k
    ensures ToLittle(n, k)[i] == Above(n, i) % 256
  {
    if i > 0 {
      LittleByte(n / 256, k - 1, i - 1);
      AboveFirst(n, i - 1);
    }
  }

  lemma {:induction false} LowByte(low: nat, rest: nat)
    requires low < 256
    ensures (low + 256 * rest) % 256 == low && (low + 256 * rest) / 256 == rest
  {
  }

  lemma {:induction false} EightBytes()
    ensures Pow256(8) == TWO_64
  {
    assert Pow256(4) == TWO_32;
    assert Pow256(6) == 0x1_0000 * Pow256(4);
  }

  function Word(n: Uint64): (b: seq<Byte>)
    ensures |b| == 8
  {
    ToLittle(n, 8)
  }

  function Number(b: seq<Byte>): (n: Uint64)
    requires |b| == 8
  {
    EightBytes();
    FromLittle(b)
  }

  lemma {:induction false} NumberOfWord(n: Uint64)
    ensures Number(Word(n)) == n
  {
    EightBytes();
    LittleOfNumber(n, 8);
  }

  lemma {:induction false} WordOfNumber(b: seq<Byte>)
    requires |b| == 8
    ensures Word(Number(b)) == b
  {
    NumberOfLittle(b);
  }

  // ---- one record ------------------------------------------------------------------------

  predicate GoodTxid(f: Fund) { FromHex(f.txid).Some? && |FromHex(f.txid).value| == 32 }

  // 64 hexadecimal digits in either case.
  lemma {:induction false} GoodTxidIsHex(f: Fund)
    ensures GoodTxid(f) <==> |f.txid| == 64 && IsHex(f.txid)
  {
    BytesOfHex(f.txid);
  }

  function Packed(txid: seq<Byte>, vout: seq<Byte>, start: seq<Byte>, stop: seq<Byte>, flag: Byte): (r: seq<Byte>)
    requires |txid| == 32 && |vout| == |start| == |stop| == 8
    ensures |r| == RECORD
    ensures r[..32] == txid && r[32..40] == vout && r[40..48] == start && r[48..56] == stop && r[56] == flag
  {
    txid + vout + start + stop + [flag]
  }

  lemma {:induction false} PackedAgain(r: seq<Byte>)
    requires |r| == RECORD
    ensures Packed(r[..32], r[32..40], r[40..48], r[48..56], r[56]) == r
  {
  }

  function Written(f: Fund): (r: seq<Byte>)
    requires GoodTxid(f)
    ensures |r| == RECORD
  {
    Packed(FromHex(f.txid).value, Word(f.vout), Word(f.start), Word(f.stop), if f.expires then 1 else 0)
  }

  // The output index is cut to 32 bits, and any flag but 0 is set.
  function Read(r: seq<Byte>): Fund
    requires |r| == RECORD
  {
    Fund(ToHex(r[..32]), Number(r[32..40]) % TWO_32, Number(r[40..48]), Number(r[48..56]), r[56] != 0)
  }

  // Where a record has what: the id's bytes as they are read, then output index, start and stop, low bytes first,
  // and the flag.
  lemma {:induction false} WrittenLayout(f: Fund, i: nat)
    requires GoodTxid(f) && i < 8
    ensures var r := Written(f);
      && r[..32] == FromHex(f.txid).value
      && r[32 + i] == Above(f.vout, i) % 256
      && r[40 + i] == Above(f.start, i) % 256
      && r[48 + i] == Above(f.stop, i) % 256
      && r[56] == if f.expires then 1 else 0
  {
    var r := Written(f);
    LittleByte(f.vout, 8, i);
    LittleByte(f.start, 8, i);
    LittleByte(f.stop, 8, i);
    assert r[32 + i] == r[32..40][i] && r[40 + i] == r[40..48][i] && r[48 + i] == r[48..56][i];
  }

  lemma {:induction false} LowFour(b: seq<Byte>)
    requires |b| == 8
    ensures FromLittle(b) % TWO_32 == FromLittle(b[..4])
  {
    var c, d, e, f := b[1..], b[1..][1..], b[1..][1..][1..], b[1..][1..][1..][1..];
    assert FromLittle(b) == b[0] as int + 256 * FromLittle(c) && FromLittle(c) == b[1] as int + 256 * FromLittle(d);
    assert FromLittle(d) == b[2] as int + 256 * FromLittle(e) && FromLittle(e) == b[3] as int + 256 * FromLittle(f);
    FourBytes(b[..4]);
    assert FromLittle(b) == FromLittle(b[..4]) + TWO_32 * FromLittle(f);
    assert Pow256(4) == TWO_32;
  }

  lemma {:induction false} FourBytes(b: seq<Byte>)
    requires |b| == 4
    ensures FromLittle(b) == b[0] as int + 256 * (b[1] as int + 256 * (b[2] as int + 256 * b[3] as int))
    ensures FromLittle(b) < Pow256(4)
  {
    var c, d, e := b[1..], b[1..][1..], b[1..][1..][1..];
    assert e[1..] == [] && e[0] == b[3] && d[0] == b[2] && c[0] == b[1];
    assert FromLittle(e[1..]) == 0 && FromLittle(e) == e[0] as int;
    assert FromLittle(d) == d[0] as int + 256 * FromLittle(e);
    assert FromLittle(c) == c[0] as int + 256 * FromLittle(d);
    assert FromLittle(b) == b[0] as int + 256 * FromLittle(c);
  }

  // What is read from where: of the eight bytes of an output index only the four low ones count.
  lemma {:induction false} ReadLayout(r: seq<Byte>, i: nat)
    requires |r| == RECORD && i < 8
    ensures var f := Read(r);
      && f.txid == ToHex(r[..32]) && f.vout == FromLittle(r[32..36])
      && Above(f.start, i) % 256 == r[40 + i] && Above(f.stop, i) % 256 == r[48 + i]
      && f.expires == (r[56] != 0)
  {
    LowFour(r[32..40]);
    assert r[32..40][..4] == r[32..36];
    NumberOfLittle(r[40..48]);
    NumberOfLittle(r[48..56]);
    LittleByte(Number(r[40..48]), 8, i);
    LittleByte(Number(r[48..56]), 8, i);
    assert r[40..48][i] == r[40 + i] && r[48..56][i] == r[48 + i];
  }

  predicate Canonical(r: seq<Byte>)
    requires |r| == RECORD
  {
    Number(r[32..40]) < TWO_32 && r[56] <= 1
  }

  lemma {:induction false} ReadPacked(txid: seq<Byte>, vout: seq<Byte>, start: seq<Byte>, stop: seq<Byte>, flag: Byte, v: Uint64, f: Fund)
    requires |txid| == 32 && |vout| == |start| == |stop| == 8
    requires v == Number(vout) && f == Fund(ToHex(txid), v % TWO_32, Number(start), Number(stop), flag != 0)
    ensures Read(Packed(txid, vout, start, stop, flag)) == f
    ensures Canonical(Packed(txid, vout, start, stop, flag)) <==> v < TWO_32 && flag <= 1
  {
  }

  lemma {:induction false} WrittenIs(
    f: Fund, txid: seq<Byte>, vout: seq<Byte>, start: seq<Byte>, stop: seq<Byte>, flag: Byte)
    requires GoodTxid(f) && FromHex(f.txid) == Some(txid) && |txid| == 32
    requires Word(f.vout) == vout && Word(f.start) == start && Word(f.stop) == stop && flag == if f.expires then 1 else 0
    ensures Written(f) == Packed(txid, vout, start, stop, flag)
  {
  }

  lemma {:induction false} WordsRead(r: seq<Byte>, txid: seq<Byte>, v: Uint32, start: Uint64, stop: Uint64, flag: Byte, f: Fund)
    requires |txid| == 32 && r == Packed(txid, Word(v), Word(start), Word(stop), flag)
    requires flag <= 1 && f == Fund(ToHex(txid), v, start, stop, flag != 0)
    ensures Read(r) == f && Canonical(r)
  {
    NumberOfWord(v);
    NumberOfWord(start);
    NumberOfWord(stop);
    ReadPacked(txid, Word(v), Word(start), Word(stop), flag, v, f);
  }

  lemma {:induction false} ReadWritten(f: Fund)
    requires GoodTxid(f)
    ensures Read(Written(f)) == f.(txid := LowerCase(f.txid)) && Canonical(Written(f))
  {
    HexIsLower(f.txid);
    WordsRead(Written(f), FromHex(f.txid).value, f.vout, f.start, f.stop, if f.expires then 1 else 0,
      f.(txid := LowerCase(f.txid)));
  }

  lemma {:induction false} ReadIsGood(r: seq<Byte>)
    requires |r| == RECORD
    ensures GoodTxid(Read(r)) && IsLower(Read(r).txid) && FromHex(Read(r).txid) == Some(r[..32])
  {
    HexOfBytes(r[..32]);
    BytesOfHex(ToHex(r[..32]));
  }

  lemma {:induction false} WrittenRead(r: seq<Byte>)
    requires |r| == RECORD
    ensures GoodTxid(Read(r))
    ensures Written(Read(r)) == r <==> Canonical(r)
  {
    ReadIsGood(r);
    if Canonical(r) {
      WrittenAgain(r);
    } else {
      ReadWritten(Read(r));
    }
  }

  lemma {:induction false} WrittenAgain(r: seq<Byte>)
    requires |r| == RECORD && Canonical(r) && GoodTxid(Read(r)) && FromHex(Read(r).txid) == Some(r[..32])
    ensures Written(Read(r)) == r
  {
    var f, vout, start, stop := Read(r), r[32..40], r[40..48], r[48..56];
    assert f.vout == Number(vout) && f.start == Number(start) && f.stop == Number(stop);
    WordOfNumber(vout);
    WordOfNumber(start);
    WordOfNumber(stop);
    WrittenIs(f, r[..32], vout, start, stop, r[56]);
    PackedAgain(r);
  }

  // ---- payloads --------------------------------------------------------------------------

  ghost predicate AllGood(funds: seq<Fund>) { forall i | 0 <= i < |funds| :: GoodTxid(funds[i]) }

  function Encoded(funds: seq<Fund>): (b: seq<Byte>)
    requires AllGood(funds)
    ensures |b| == RECORD * |funds|
  {
    if funds == [] then [] else Encoded(funds[..|funds| - 1]) + Written(funds[|funds| - 1])
  }

  function Decoded(b: seq<Byte>, n: nat): (funds: seq<Fund>)
    requires |b| == RECORD * n
    ensures |funds| == n
  {
    if n == 0 then [] else Decoded(b[..|b| - RECORD], n - 1) + [Read(b[|b| - RECORD..])]
  }

  ghost predicate AllCanonical(b: seq<Byte>, n: nat)
    requires |b| == RECORD * n
  {
    n > 0 ==> AllCanonical(b[..|b| - RECORD], n - 1) && Canonical(b[|b| - RECORD..])
  }

  lemma {:induction false} EncodedMore(funds: seq<Fund>, f: Fund, more: seq<Fund>)
    requires AllGood(funds) && GoodTxid(f) && more == funds + [f]
    ensures AllGood(more) && Encoded(more) == Encoded(funds) + Written(f)
  {
    assert more[..|funds|] == funds;
  }

  lemma {:induction false} DecodedMore(b: seq<Byte>, n: nat, r: seq<Byte>, more: seq<Byte>)
    requires |b| == RECORD * n && |r| == RECORD && more == b + r
    ensures Decoded(more, n + 1) == Decoded(b, n) + [Read(r)]
    ensures AllCanonical(more, n + 1) <==> AllCanonical(b, n) && Canonical(r)
  {
    assert more[..|b|] == b && more[|b|..] == r;
  }

  method FundsPayload(funds: seq<Fund>) returns (payload: Result<seq<Byte>>)
    ensures payload.Ok? <==> funds != [] && AllGood(funds)
    ensures payload.Ok? ==> payload.value == Encoded(funds) && |payload.value| == RECORD * |funds|
  {
    if |funds| == 0 { return Err("freeze/unfreeze alert needs at least one fund"); }
    var out: seq<Byte> := [];
    for i := 0 to |funds|
      invariant AllGood(funds[..i]) && out == Encoded(funds[..i])
    {
      var raw := FromHex(funds[i].txid);
      if raw.None? || |raw.value| != 32 {
        assert !GoodTxid(funds[i]);
        return Err("txid must be 32 bytes of hex");
      }
      EncodedMore(funds[..i], funds[i], funds[..i + 1]);
      out := out + Written(funds[i]);
    }
    assert funds[..|funds|] == funds;
    payload := Ok(out);
  }

  // Funds, of a freeze or unfreeze alert's payload.
  method Funds(raw: seq<Byte>) returns (funds: Result<seq<Fund>>)
    ensures funds.Ok? <==> raw != [] && |raw| % RECORD == 0
    ensures funds.Ok? ==> funds.value == Decoded(raw, |raw| / RECORD)
  {
    if |raw| == 0 || |raw| % RECORD != 0 { return Err("funds payload is not a multiple of 57"); }
    var out: seq<Fund> := [];
    var i := 0;
    ghost var k := 0;
    while i + RECORD <= |raw|
      invariant i <= |raw| && i == RECORD * k
      invariant out == Decoded(raw[..i], k)
    {
      var r := raw[i..i + RECORD];
      DecodedMore(raw[..i], k, r, raw[..i + RECORD]);
      out := out + [Read(r)];
      i := i + RECORD;
      k := k + 1;
    }
    assert k == |raw| / RECORD && raw[..i] == raw;
    funds := Ok(out);
  }

  // ---- round trips -----------------------------------------------------------------------

  function LowerTxid(f: Fund): Fund { f.(txid := LowerCase(f.txid)) }

  function Lowered(funds: seq<Fund>): seq<Fund> {
    if funds == [] then [] else Lowered(funds[..|funds| - 1]) + [LowerTxid(funds[|funds| - 1])]
  }

  lemma {:induction false} DecodeEncodedMore(funds: seq<Fund>, n: nat, f: Fund, more: seq<Fund>)
    requires AllGood(funds) && GoodTxid(f) && n == |funds| && more == funds + [f]
    requires Decoded(Encoded(funds), n) == Lowered(funds)
    ensures AllGood(more) && Decoded(Encoded(more), n + 1) == Lowered(more)
  {
    EncodedMore(funds, f, more);
    DecodedMore(Encoded(funds), n, Written(f), Encoded(more));
    ReadWritten(f);
    assert more[..|funds|] == funds;
  }

  // Decoding an encoded list gives it back with its ids in lower case.
  lemma {:induction false} DecodeEncoded(funds: seq<Fund>)
    requires AllGood(funds)
    ensures Decoded(Encoded(funds), |funds|) == Lowered(funds)
  {
    if funds != [] {
      var init, last := funds[..|funds| - 1], funds[|funds| - 1];
      assert funds == init + [last];
      DecodeEncoded(init);
      DecodeEncodedMore(init, |init|, last, funds);
    }
  }

  // It is the same list exactly when all its ids were in lower case.
  lemma {:induction false} RoundTrip(funds: seq<Fund>)
    requires AllGood(funds)
    ensures Decoded(Encoded(funds), |funds|) == funds <==> forall i | 0 <= i < |funds| :: IsLower(funds[i].txid)
  {
    DecodeEncoded(funds);
    LoweredIsSame(funds);
  }

  lemma {:induction false} LoweredIsSame(funds: seq<Fund>)
    ensures |Lowered(funds)| == |funds|
    ensures Lowered(funds) == funds <==> forall i | 0 <= i < |funds| :: IsLower(funds[i].txid)
  {
    if funds != [] {
      var n := |funds| - 1;
      LoweredIsSame(funds[..n]);
      assert funds == funds[..n] + [funds[n]];
      if Lowered(funds) == funds {
        assert Lowered(funds[..n]) == Lowered(funds)[..n];
        assert LowerTxid(funds[n]) == funds[n];
        assert forall i | 0 <= i < n :: IsLower(funds[..n][i].txid);
      }
    }
  }

  // Encoding a decoded payload gives it back exactly when every record's output index fits 32 bits and
  // its flag is 0 or 1.
  lemma {:induction false} EncodeDecoded(b: seq<Byte>, n: nat)
    requires |b| == RECORD * n
    ensures AllGood(Decoded(b, n))
    ensures Encoded(Decoded(b, n)) == b <==> AllCanonical(b, n)
    decreases n, 0
  {
    if n > 0 {
      EncodeDecodedLast(b, n - 1, b[..|b| - RECORD], b[|b| - RECORD..]);
    }
  }

  lemma {:induction false} EncodeDecodedLast(b: seq<Byte>, n: nat, init: seq<Byte>, r: seq<Byte>)
    requires |b| == RECORD * (n + 1) && b == init + r && |init| == RECORD * n
    ensures AllGood(Decoded(b, n + 1))
    ensures Encoded(Decoded(b, n + 1)) == b <==> AllCanonical(b, n + 1)
    decreases n, 1
  {
    EncodeDecoded(init, n);
    EncodeDecodedMore(init, n, r, b);
  }

  lemma {:induction false} EncodeDecodedMore(b: seq<Byte>, n: nat, r: seq<Byte>, more: seq<Byte>)
    requires |b| == RECORD * n && |r| == RECORD && more == b + r
    requires AllGood(Decoded(b, n)) && (Encoded(Decoded(b, n)) == b <==> AllCanonical(b, n))
    ensures AllGood(Decoded(more, n + 1))
    ensures Encoded(Decoded(more, n + 1)) == more <==> AllCanonical(more, n + 1)
  {
    DecodedMore(b, n, r, more);
    WrittenRead(r);
    EncodedMore(Decoded(b, n), Read(r), Decoded(more, n + 1));
    SplitEqual(Encoded(Decoded(b, n)), Written(Read(r)), b, r);
  }

  lemma {:induction false} SplitEqual(a: seq<Byte>, b: seq<Byte>, c: seq<Byte>, d: seq<Byte>)
    requires |a| == |c|
    ensures a + b == c + d <==> a == c && b == d
  {
    if a + b == c + d {
      assert a == (a + b)[..|a|] && b == (a + b)[|a|..];
      assert c == (c + d)[..|a|] && d == (c + d)[|a|..];
    }
  }

  // ---- where they end --------------------------------------------------------------------

  function Same<T>(x: T, n: nat): (s: seq<T>)
    ensures |s| == n && forall i | 0 <= i < n :: s[i] == x
  {
    if n == 0 then [] else Same(x, n - 1) + [x]
  }

  // An id of 64 capital digits comes back in lower case.
  lemma {:induction false} CapitalsComeBackLower()
    ensures var funds := [Fund(Same('A', 64), 0, 0, 0, false)];
      AllGood(funds) && Decoded(Encoded(funds), |funds|) != funds
  {
    var f := Fund(Same('A', 64), 0, 0, 0, false);
    GoodTxidIsHex(f);
    assert f.txid[0] == 'A' && !IsLower(f.txid);
    var funds := [f];
    assert !IsLower(funds[0].txid);
    RoundTrip(funds);
  }

  // A record of zeros with the flag 2 comes back with the flag 1.
  lemma {:induction false} OtherFlagComesBackOne()
    ensures var b: seq<Byte> := Same(0, 56) + [2];
      |b| == RECORD && AllGood(Decoded(b, 1)) && Encoded(Decoded(b, 1)) != b
  {
    var b: seq<Byte> := Same(0, 56) + [2];
    EncodeDecoded(b, 1);
    assert b[|b| - RECORD..] == b && b[56] == 2;
    assert !Canonical(b[|b| - RECORD..]);
  }
}
