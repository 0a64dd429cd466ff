/** Base-10 integers as Go's strconv and fmt write and read them. */
module Decimal {
  import opened Basics

  const MAX_INT64: int := 0x7FFF_FFFF_FFFF_FFFF
  const MIN_INT64: int := -0x8000_0000_0000_0000
  const TWO_64: int := 0x1_0000_0000_0000_0000

  predicate IsInt64(n: int) { MIN_INT64 <= n <= MAX_INT64 }

  // The value a 64-bit two's-complement register holds for n.
  function Wrap64(n: int): (w: int)
    ensures IsInt64(w)
    ensures IsInt64(n) ==> w == n
  {
    (n - MIN_INT64) % TWO_64 + MIN_INT64
  }

  predicate IsDigit(c: char) { '0' <= c <= '9' }

  function DigitOf(d: nat): char
    requires d < 10
  {
    '0' + d as char
  }

  function FormatNat(n: nat): (s: string)
    ensures s != [] && forall i | 0 <= i < |s| :: IsDigit(s[i])
  {
    if n < 10 then [DigitOf(n)] else FormatNat(n / 10) + [DigitOf(n % 10)]
  }

  function FormatInt(n: int): string {
    if n < 0 then "-" + FormatNat(-n) else FormatNat(n)
  }

  // The value of a run of digits, leading zeros included.
  function ParseNat(s: string): Option<nat> {
    if s == [] || !IsDigit(s[|s| - 1]) then None
    else
      var d := (s[|s| - 1] - '0') as nat;
      if |s| == 1 then Some(d)
      else match ParseNat(s[..|s| - 1])
           case Some(n) => Some(10 * n + d)
           case None => None
  }

  function ParseUint64(s: string): Option<nat> {
    match ParseNat(s)
    case Some(n) => if n < TWO_64 then Some(n) else None
    case None => None
  }

  function Signed(negative: bool, n: int): int { if negative then -n else n }

  // One sign, either kind, then digits; a value outside 64 bits is an error.
  function ParseInt64(s: string): Option<int> {
    if s != [] && s[0] in "+-" then
      match ParseNat(s[1..])
      case Some(n) => var v := Signed(s[0] == '-', n); if IsInt64(v) then Some(v) else None
      case None => None
    else
      match ParseNat(s)
      case Some(n) => if IsInt64(n) then Some(n) else None
      case None => None
  }

  // The number strconv.Atoi gives, whether or not it reports an error: 0 for what is no number and the
  // nearest value for one outside 64 bits.
  function Atoi(s: string): int {
    var negative := s != [] && s[0] == '-';
    match ParseNat(if s != [] && s[0] in "+-" then s[1..] else s)
    case Some(n) =>
      var v := Signed(negative, n);
      if v > MAX_INT64 then MAX_INT64 else if v < MIN_INT64 then MIN_INT64 else v
    case None => 0
  }

  // What a digit more at the end makes of a number.
  lemma {:induction false} OneDigitMore(s: string, d: char)
    requires IsDigit(d)
    ensures ParseNat([d]) == Some((d - '0') as nat)
    ensures s != [] ==>
      ParseNat(s + [d]) == match ParseNat(s) case Some(n) => Some(10 * n + (d - '0') as nat) case None => None
  {
    assert (s + [d])[..|s|] == s;
  }

  // What is not all digits is no number; with a sign, what follows the sign counts.
  lemma {:induction false} NumberIsDigits(s: string)
    ensures ParseNat(s).Some? <==> s != [] && forall i | 0 <= i < |s| :: '0' <= s[i] <= '9'
  {
    if |s| > 1 {
      NumberIsDigits(s[..|s| - 1]);
      assert s == s[..|s| - 1] + [s[|s| - 1]];
      assert forall i | 0 <= i < |s| - 1 :: s[i] == s[..|s| - 1][i];
    }
  }

  lemma {:induction false} SignedNumber(s: string)
    ensures ParseInt64("-" + s) == match ParseNat(s) case Some(n) => (var m: int := n; if m <= -MIN_INT64 then Some(-m) else None) case None => None
    ensures ParseInt64("+" + s) == match ParseNat(s) case Some(n) => (if n <= MAX_INT64 then Some(n) else None) case None => None
    ensures s == [] || s[0] !in "+-" ==>
      ParseInt64(s) == match ParseNat(s) case Some(n) => (if n <= MAX_INT64 then Some(n) else None) case None => None
  {
    assert ("-" + s)[1..] == s && ("+" + s)[1..] == s;
  }

  // Atoi's number: the value brought into 64 bits, and 0 for what is no number.
  lemma {:induction false} AtoiIs(n: int, s: string)
    ensures Atoi(FormatInt(n)) == if n > MAX_INT64 then MAX_INT64 else if n < MIN_INT64 then MIN_INT64 else n
    ensures s == [] || (s[0] !in "+-" && exists i | 0 <= i < |s| :: !('0' <= s[i] <= '9')) ==> Atoi(s) == 0
  {
    ParseFormatNat(if n < 0 then -n else n);
    var t := FormatInt(n);
    if n < 0 { assert t[1..] == FormatNat(-n); } else { assert IsDigit(t[0]); }
    NumberIsDigits(s);
  }

  lemma {:induction false} ParseFormatNat(n: nat)
    ensures ParseNat(FormatNat(n)) == Some(n)
  {
    if n >= 10 {
      var s := FormatNat(n);
      assert s[..|s| - 1] == FormatNat(n / 10);
      ParseFormatNat(n / 10);
    }
  }

  // Numbers are written without leading zeros.
  lemma {:induction false} NoLeadingZero(n: nat)
    ensures n >= 10 ==> FormatNat(n)[0] != '0'
    ensures n < 10 ==> |FormatNat(n)| == 1
  {
    if n >= 10 {
      NoLeadingZero(n / 10);
      if n / 10 < 10 { assert FormatNat(n / 10)[0] == DigitOf(n / 10); }
    }
  }

  lemma {:induction false} ParseFormatUint(n: nat)
    ensures ParseUint64(FormatNat(n)) == if n < TWO_64 then Some(n) else None
  {
    ParseFormatNat(n);
  }

  lemma {:induction false} ParseFormatInt(n: int)
    ensures ParseInt64(FormatInt(n)) == if IsInt64(n) then Some(n) else None
  {
    ParseFormatNat(if n < 0 then -n else n);
    var s := FormatInt(n);
    if n < 0 {
      assert s[1..] == FormatNat(-n);
    } else {
      assert IsDigit(s[0]);
    }
  }
}
