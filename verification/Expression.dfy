/**
 * The ${...} expressions of scenario files (internal/scenario/executor.go, eval and toInt). What a
 * word that is not a number stands for (a variable, a role, a live tip) is a parameter.
 */
module Expression {
  import opened Basics
  import opened Decimal

  type Int64 = n: int | IsInt64(n)

  // A Float is a finite one.
  datatype Value = Int(n: Int64) | Unsigned(u: nat) | Float(x: real) | Text(s: string) | Other

  type Leaf = string -> Result<Value>

  // unicode.IsSpace
  predicate Space(c: char) {
    || '\t' <= c <= '\r' || c == ' ' || c == '\U{85}' || c == '\U{A0}' || c == '\U{1680}'
    || '\U{2000}' <= c <= '\U{200A}' || c in "\U{2028}\U{2029}\U{202F}\U{205F}\U{3000}"
  }

  function Trim(s: string): (t: string)
    ensures |t| <= |s|
    decreases |s|
  {
    if s != [] && Space(s[0]) then Trim(s[1..])
    else if s != [] && Space(s[|s| - 1]) then Trim(s[..|s| - 1])
    else s
  }

  ghost predicate Blank(s: string) { forall i | 0 <= i < |s| :: Space(s[i]) }

  // What is trimmed is blank, at either end, and nothing blank is left there.
  lemma {:induction false} TrimIs(s: string) returns (a: string, b: string)
    ensures s == a + Trim(s) + b && Blank(a) && Blank(b)
    ensures Trim(s) != [] ==> !Space(Trim(s)[0]) && !Space(Trim(s)[|Trim(s)| - 1])
    decreases |s|
  {
    if s != [] && Space(s[0]) {
      a, b := TrimIs(s[1..]);
      a := TrimmedAhead(s, a, b);
    } else if s != [] && Space(s[|s| - 1]) {
      a, b := TrimIs(s[..|s| - 1]);
      b := TrimmedBehind(s, a, b);
    } else {
      a, b := [], [];
    }
  }

  lemma {:induction false} TrimmedAhead(s: string, a: string, b: string) returns (c: string)
    requires s != [] && Space(s[0]) && s[1..] == a + Trim(s) + b && Blank(a)
    ensures s == c + Trim(s) + b && Blank(c)
  {
    c := [s[0]] + a;
    assert s == [s[0]] + s[1..];
  }

  lemma {:induction false} TrimmedBehind(s: string, a: string, b: string) returns (c: string)
    requires s != [] && Space(s[|s| - 1]) && s[..|s| - 1] == a + Trim(s) + b && Blank(b)
    ensures s == a + Trim(s) + c && Blank(c)
  {
    c := b + [s[|s| - 1]];
    assert s == s[..|s| - 1] + [s[|s| - 1]];
  }

  // Tabs, newlines and blanks are spaces and no other printable character of ASCII is.
  lemma {:induction false} AsciiSpaces(c: char)
    requires c <= '~'
    ensures Space(c) <==> c in "\t\n\U{B}\U{C}\r "
  {
  }

  predicate Occurs(s: string, sub: string, i: int) { 0 <= i <= |s| - |sub| && s[i..i + |sub|] == sub }

  // What occurs in a text but not at its end occurs in it without its last character.
  lemma {:induction false} OccursInFront(s: string, sub: string, j: int)
    requires s != [] && Occurs(s, sub, j) && s[|s| - |sub|..] != sub
    ensures j < |s| - |sub| && Occurs(s[..|s| - 1], sub, j)
  {
    if j < |s| - |sub| { assert s[j..j + |sub|] == s[..|s| - 1][j..j + |sub|]; }
  }

  // strings.LastIndex
  function LastIndex(s: string, sub: string): (i: int)
    ensures i == -1 || Occurs(s, sub, i)
    ensures forall j | i < j :: !Occurs(s, sub, j)
    decreases |s|
  {
    if |s| < |sub| then -1
    else if s[|s| - |sub|..] == sub then |s| - |sub|
    else if s == [] then -1
    else
      assert forall j | Occurs(s, sub, j) :: Occurs(s[..|s| - 1], sub, j) by {
        forall j | Occurs(s, sub, j) ensures Occurs(s[..|s| - 1], sub, j) {
          OccursInFront(s, sub, j);
        }
      }
      LastIndex(s[..|s| - 1], sub)
  }

  // A floating-point number loses its fraction. The language leaves open what one too large for 64 bits
  // becomes; here it is what the common processors give.
  function Truncated(x: real): (n: int)
    ensures IsInt64(n)
    ensures MIN_INT64 as real <= x <= MAX_INT64 as real ==>
      if x >= 0.0 then n as real <= x < (n + 1) as real else (n - 1) as real < x <= n as real
  {
    var n := if x >= 0.0 then x.Floor else -(-x).Floor;
    if IsInt64(n) then n else MIN_INT64
  }

  function ToInt(v: Value): (r: Option<int>)
    ensures r.Some? ==> IsInt64(r.value)
  {
    match v
    case Int(n) => Some(n)
    case Unsigned(u) => Some(Wrap64(u))
    case Float(x) => Some(Truncated(x))
    case Text(s) => ParseInt64(s)
    case Other => None
  }

  // Numbers are themselves, in 64 bits; a text that is written as a number is one.
  lemma {:induction false} ToIntOf(n: Int64, u: nat, q: int)
    ensures ToInt(Int(n)) == Some(n) && ToInt(Text(FormatInt(n))) == Some(n) && ToInt(Other) == None
    ensures MIN_INT64 <= u - q * TWO_64 <= MAX_INT64 ==> ToInt(Unsigned(u)) == Some(u - q * TWO_64)
  {
    ParseFormatInt(n);
    WrapShift(u - q * TWO_64, q);
  }

  // A word that is a number of 64 bits is that number, whatever else goes by that name; any other is looked up.
  lemma {:induction false} WordIs(n: int, w: string, leaf: Leaf)
    ensures IsInt64(n) ==> EvalWord(FormatInt(n), leaf) == Ok(Int(n))
    ensures ParseInt64(w) == None ==> EvalWord(w, leaf) == leaf(w)
  {
    ParseFormatInt(n);
  }

  function Operator(op: char): string { [' ', op, ' '] }

  function Combine(op: char, l: Value, r: Value): Result<Value> {
    match (ToInt(l), ToInt(r))
    case (Some(a), Some(b)) => Ok(Int(Wrap64(if op == '+' then a + b else a - b)))
    case _ => Err("non-integer arithmetic")
  }

  // The whole expression is split at its last " + ", and only without one at its last " - ".
  function Eval(expr: string, leaf: Leaf): Result<Value>
    decreases |expr|
  {
    var e := Trim(expr);
    var plus, minus := LastIndex(e, Operator('+')), LastIndex(e, Operator('-'));
    if plus > 0 then EvalAt(e, '+', plus, leaf)
    else if minus > 0 then EvalAt(e, '-', minus, leaf)
    else EvalWord(e, leaf)
  }

  function EvalAt(e: string, op: char, i: int, leaf: Leaf): Result<Value>
    requires 0 < i <= |e| - 3
    decreases |e|, 0
  {
    match Eval(e[..i], leaf)
    case Err(m) => Err(m)
    case Ok(l) =>
      match Eval(e[i + 3..], leaf)
      case Err(m) => Err(m)
      case Ok(r) => Combine(op, l, r)
  }

  function EvalWord(e: string, leaf: Leaf): Result<Value> {
    match ParseInt64(e)
    case Some(n) => Ok(Int(n))
    case None => leaf(e)
  }

  // ---- splitting a text of words ---------------------------------------------------------

  // A word: no spaces inside. It may be a sign.
  predicate Word(t: string) { t != [] && forall i | 0 <= i < |t| :: !Space(t[i]) }

  ghost predicate Words(ts: seq<string>) { ts != [] && forall i | 0 <= i < |ts| :: Word(ts[i]) }

  // The words with a space between them.
  function Join(ts: seq<string>): string {
    if ts == [] then ""
    else if |ts| == 1 then ts[0]
    else Join(ts[..|ts| - 1]) + " " + ts[|ts| - 1]
  }

  // Text that ends in this sign as a word.
  predicate EndsInSign(s: string, sign: char) { |s| >= 2 && s[|s| - 2] == ' ' && s[|s| - 1] == sign }

  lemma {:induction false} JoinEnds(ts: seq<string>, sign: char)
    requires Words(ts) && sign in "+-"
    ensures var s := Join(ts);
      s != [] && !Space(s[0]) && !Space(s[|s| - 1]) && (EndsInSign(s, sign) <==> |ts| >= 2 && ts[|ts| - 1] == [sign])
  {
    var n := |ts| - 1;
    var t := ts[n];
    assert Word(t);
    if |t| >= 2 { assert !Space(t[|t| - 2]); }
    if n > 0 { JoinEnds(ts[..n], sign); }
  }

  lemma {:induction false} TrimKeeps(s: string)
    requires s != [] && !Space(s[0]) && !Space(s[|s| - 1])
    ensures Trim(s) == s
  {
  }

  // Appending a word adds an operator only if the text ended in that sign.
  lemma {:induction false} OccursAppended(s: string, t: string, sign: char, i: int)
    requires s != [] && s[|s| - 1] != ' ' && Word(t) && sign in "+-"
    ensures Occurs(s + " " + t, Operator(sign), i) <==> Occurs(s, Operator(sign), i) || (i == |s| - 2 && EndsInSign(s, sign))
  {
    var all := s + " " + t;
    if 0 <= i <= |all| - 3 {
      assert all[i..i + 3] == [all[i], all[i + 1], all[i + 2]];
      if i + 3 <= |s| {
        assert all[i..i + 3] == s[i..i + 3];
      } else if i >= |s| {
        assert !Space(t[i + 1 - |s|]);
      }
    }
  }

  lemma {:induction false} LastIndexAppended(s: string, t: string, sign: char)
    requires s != [] && s[|s| - 1] != ' ' && Word(t) && sign in "+-"
    ensures LastIndex(s + " " + t, Operator(sign)) == if EndsInSign(s, sign) then |s| - 2 else LastIndex(s, Operator(sign))
  {
    OccursAppended(s, t, sign, LastIndex(s + " " + t, Operator(sign)));
    OccursAppended(s, t, sign, LastIndex(s, Operator(sign)));
    OccursAppended(s, t, sign, |s| - 2);
  }

  lemma {:induction false} NoOperatorInWord(t: string, sign: char)
    requires Word(t)
    ensures LastIndex(t, Operator(sign)) == -1
  {
    forall i ensures !Occurs(t, Operator(sign), i) {
      if 0 <= i <= |t| - 3 { assert t[i..i + 3][0] == t[i]; }
    }
  }

  // The last of the words that is this sign and neither the first word nor the last, or -1.
  function LastSign(ts: seq<string>, sign: char): (k: int)
    ensures k == -1 || (0 < k < |ts| - 1 && ts[k] == [sign])
    ensures forall j | (k == -1 || k < j) && 0 < j < |ts| - 1 :: ts[j] != [sign]
  {
    if |ts| < 3 then -1
    else if ts[|ts| - 2] == [sign] then |ts| - 2
    else LastSign(ts[..|ts| - 1], sign)
  }

  // Where word k's operator starts in the text.
  function SignStart(ts: seq<string>, k: int): int
    requires k <= |ts|
  {
    if k <= 0 then -1 else |Join(ts[..k])|
  }

  // The operator found last is the last of the words that is that sign, first and last word apart.
  lemma {:induction false} LastSignWritten(ts: seq<string>, sign: char)
    requires Words(ts) && sign in "+-"
    ensures LastIndex(Join(ts), Operator(sign)) == SignStart(ts, LastSign(ts, sign))
  {
    var n := |ts| - 1;
    if n == 0 {
      NoOperatorInWord(ts[0], sign);
    } else {
      LastSignWritten(ts[..n], sign);
      OneMoreWord(ts, ts[..n], sign);
    }
  }

  lemma {:induction false} IndexMore(front: seq<string>, t: string, sign: char)
    requires Words(front) && Word(t) && sign in "+-"
    ensures LastIndex(Join(front) + " " + t, Operator(sign))
      == if |front| >= 2 && front[|front| - 1] == [sign] then |Join(front[..|front| - 1])|
         else LastIndex(Join(front), Operator(sign))
  {
    JoinEnds(front, sign);
    LastIndexAppended(Join(front), t, sign);
  }

  lemma {:induction false} OneMoreWord(ts: seq<string>, front: seq<string>, sign: char)
    requires Words(ts) && sign in "+-" && |ts| >= 2 && front == ts[..|ts| - 1]
    requires LastIndex(Join(front), Operator(sign)) == SignStart(front, LastSign(front, sign))
    ensures LastIndex(Join(ts), Operator(sign)) == SignStart(ts, LastSign(ts, sign))
  {
    var n := |front|;
    IndexMore(front, ts[n], sign);
    assert Join(ts) == Join(front) + " " + ts[n];
    StartMore(ts, front, sign);
  }

  lemma {:induction false} StartMore(ts: seq<string>, front: seq<string>, sign: char)
    requires |ts| >= 2 && front == ts[..|ts| - 1]
    ensures SignStart(ts, LastSign(ts, sign))
      == if |front| >= 2 && front[|front| - 1] == [sign] then |Join(front[..|front| - 1])|
         else SignStart(front, LastSign(front, sign))
  {
    var n := |front|;
    if n >= 2 && front[n - 1] == [sign] {
      assert front[..n - 1] == ts[..n - 1];
    } else {
      var k := LastSign(front, sign);
      assert LastSign(ts, sign) == k;
      if k > 0 { assert front[..k] == ts[..k]; }
    }
  }

  lemma {:induction false} JoinSplit(ts: seq<string>, k: nat)
    requires 0 < k < |ts| - 1
    ensures Join(ts) == Join(ts[..k]) + " " + ts[k] + " " + Join(ts[k + 1..])
  {
    var n := |ts| - 1;
    var front, tail := ts[..n], ts[k + 1..];
    if k < n - 1 {
      JoinSplit(front, k);
      assert front[..k] == ts[..k] && front[k + 1..] == tail[..|tail| - 1];
    } else {
      assert front[..k] == ts[..k] && tail == [ts[n]];
    }
  }

  // The word at which the text is split, or -1: the last plus, and only without one the last minus.
  function SplitAt(ts: seq<string>): (k: int)
    ensures k == -1 || (0 < k < |ts| - 1 && (ts[k] == "+" || ts[k] == "-"))
  {
    if LastSign(ts, '+') > 0 then LastSign(ts, '+') else LastSign(ts, '-')
  }

  lemma {:induction false} Sides(ts: seq<string>, k: nat)
    requires Words(ts) && 0 < k < |ts| - 1 && |ts[k]| == 1
    ensures Words(ts[..k]) && Words(ts[k + 1..])
    ensures var e, i := Join(ts), |Join(ts[..k])|;
      0 < i <= |e| - 3 && e[..i] == Join(ts[..k]) && e[i + 3..] == Join(ts[k + 1..])
  {
    JoinSplit(ts, k);
    JoinEnds(ts[..k], '+');
  }

  // What evaluating a text of words comes to.
  lemma {:induction false} EvalSplits(ts: seq<string>, leaf: Leaf)
    requires Words(ts)
    ensures var k := SplitAt(ts);
      if k == -1 then Eval(Join(ts), leaf) == EvalWord(Join(ts), leaf)
      else
        && 0 < |Join(ts[..k])| <= |Join(ts)| - 3
        && Eval(Join(ts), leaf) == EvalAt(Join(ts), ts[k][0], |Join(ts[..k])|, leaf)
  {
    JoinEnds(ts, '+');
    TrimKeeps(Join(ts));
    LastSignWritten(ts, '+');
    LastSignWritten(ts, '-');
    if SplitAt(ts) > 0 { Sides(ts, SplitAt(ts)); }
  }

  // ---- what a chain of terms means -------------------------------------------------------

  // One more term and the sign before it.
  datatype Item = Item(op: char, term: string)

  predicate Chain(first: string, rest: seq<Item>) {
    Word(first) && forall i | 0 <= i < |rest| :: rest[i].op in "+-" && Word(rest[i].term)
  }

  function Write(first: string, rest: seq<Item>): string {
    if rest == [] then first
    else
      var n := |rest| - 1;
      Write(first, rest[..n]) + Operator(rest[n].op) + rest[n].term
  }

  // A term "+" between two operators is followed by a plus.
  predicate Followed(rest: seq<Item>) {
    forall i | 0 <= i < |rest| - 1 :: rest[i].term == "+" ==> rest[i + 1].op == '+'
  }

  function IntOf(r: Result<Value>): Option<int> {
    match r
    case Ok(v) => ToInt(v)
    case Err(_) => None
  }

  function Sign(op: char, n: int): int { if op == '+' then n else -n }

  function Plus(op: char, a: Option<int>, b: Option<int>): Option<int> {
    match (a, b)
    case (Some(x), Some(y)) => Some(x + Sign(op, y))
    case _ => None
  }

  // The terms added up from left to right; None if one of them is no integer.
  function Sum(first: string, rest: seq<Item>, leaf: Leaf): Option<int> {
    if rest == [] then IntOf(EvalWord(first, leaf))
    else
      var n := |rest| - 1;
      Plus(rest[n].op, Sum(first, rest[..n], leaf), IntOf(EvalWord(rest[n].term, leaf)))
  }

  function Tokens(first: string, rest: seq<Item>): (ts: seq<string>)
    ensures |ts| == 2 * |rest| + 1 && ts[0] == first
    ensures forall i | 0 <= i < |rest| :: ts[2 * i + 1] == [rest[i].op] && ts[2 * i + 2] == rest[i].term
  {
    if rest == [] then [first]
    else
      var n := |rest| - 1;
      Tokens(first, rest[..n]) + [[rest[n].op], rest[n].term]
  }

  // Each word of a chain is its first term, an operator or another term.
  lemma {:induction false} TokenIs(first: string, rest: seq<Item>, j: nat)
    requires 0 < j <= 2 * |rest|
    ensures Tokens(first, rest)[j] == if j % 2 == 1 then [rest[j / 2].op] else rest[j / 2 - 1].term
  {
    var i := (j - 1) / 2;
    assert j == 2 * i + 1 || j == 2 * i + 2;
  }

  lemma {:induction false} TokensAreWords(first: string, rest: seq<Item>)
    requires Chain(first, rest)
    ensures Words(Tokens(first, rest))
  {
    var ts := Tokens(first, rest);
    forall j | 0 <= j < |ts| ensures Word(ts[j]) {
      if j > 0 { TokenIs(first, rest, j); }
    }
  }

  lemma {:induction false} WriteIsJoin(first: string, rest: seq<Item>)
    ensures Write(first, rest) == Join(Tokens(first, rest))
  {
    if rest != [] {
      var n := |rest| - 1;
      var front, ts := Tokens(first, rest[..n]), Tokens(first, rest);
      WriteIsJoin(first, rest[..n]);
      assert ts[..|ts| - 1] == front + [[rest[n].op]] && ts[..|ts| - 1][..|front|] == front;
    }
  }

  lemma {:induction false} TokenBefore(first: string, rest: seq<Item>, k: nat, j: nat)
    requires k < |rest| && j < 2 * k + 1
    ensures Tokens(first, rest)[j] == Tokens(first, rest[..k])[j]
  {
    if j > 0 {
      TokenIs(first, rest, j);
      TokenIs(first, rest[..k], j);
    }
  }

  lemma {:induction false} TokenBehind(first: string, rest: seq<Item>, k: nat, tail: seq<Item>, j: nat)
    requires k < |rest| && tail == rest[k + 1..] && j < 2 * |tail| + 1
    ensures Tokens(first, rest)[2 * k + 2 + j] == Tokens(rest[k].term, tail)[j]
  {
    if j == 0 {
      assert Tokens(first, rest)[2 * k + 2] == rest[k].term;
    } else {
      var i := (j - 1) / 2;
      assert tail[i] == rest[k + 1 + i];
      assert Tokens(rest[k].term, tail)[2 * i + 1] == [tail[i].op];
      assert Tokens(first, rest)[2 * (k + 1 + i) + 1] == [rest[k + 1 + i].op];
    }
  }

  lemma {:induction false} TokensSplit(first: string, rest: seq<Item>, k: nat)
    requires k < |rest|
    ensures Tokens(first, rest)[..2 * k + 1] == Tokens(first, rest[..k])
    ensures Tokens(first, rest)[2 * k + 2..] == Tokens(rest[k].term, rest[k + 1..])
  {
    var ts, left, right := Tokens(first, rest), Tokens(first, rest[..k]), Tokens(rest[k].term, rest[k + 1..]);
    forall j | 0 <= j < |left| ensures ts[j] == left[j] {
      TokenBefore(first, rest, k, j);
    }
    forall j | 0 <= j < |right| ensures ts[2 * k + 2 + j] == right[j] {
      TokenBehind(first, rest, k, rest[k + 1..], j);
    }
  }

  lemma {:induction false} ChainSides(first: string, rest: seq<Item>, k: nat)
    requires Chain(first, rest) && k < |rest|
    ensures var e, i := Write(first, rest), |Write(first, rest[..k])|;
      0 < i <= |e| - 3 && e[..i] == Write(first, rest[..k]) && e[i + 3..] == Write(rest[k].term, rest[k + 1..])
  {
    TokensAreWords(first, rest);
    assert Tokens(first, rest)[2 * k + 1] == [rest[k].op];
    Sides(Tokens(first, rest), 2 * k + 1);
    TokensSplit(first, rest, k);
    WriteIsJoin(first, rest);
    WriteIsJoin(first, rest[..k]);
    WriteIsJoin(rest[k].term, rest[k + 1..]);
  }

  lemma {:induction false} SumMore(first: string, rest: seq<Item>, last: Item, leaf: Leaf)
    ensures Sum(first, rest + [last], leaf) == Plus(last.op, Sum(first, rest, leaf), IntOf(EvalWord(last.term, leaf)))
  {
    assert (rest + [last])[..|rest|] == rest;
  }

  // At a plus the sum falls into the sums of the two sides.
  lemma {:induction false} SumSplit(first: string, l: seq<Item>, t: Item, r: seq<Item>, leaf: Leaf)
    requires t.op == '+'
    ensures Sum(first, l + [t] + r, leaf) == Plus('+', Sum(first, l, leaf), Sum(t.term, r, leaf))
  {
    if r == [] {
      assert l + [t] + r == l + [t];
      SumMore(first, l, t, leaf);
    } else {
      var n := |r| - 1;
      var front, last := r[..n], r[n];
      assert r == front + [last] && l + [t] + r == l + [t] + front + [last];
      SumSplit(first, l, t, front, leaf);
      SumMore(first, l + [t] + front, last, leaf);
      SumMore(t.term, front, last, leaf);
      PlusAssoc(Sum(first, l, leaf), Sum(t.term, front, leaf), last.op, IntOf(EvalWord(last.term, leaf)));
    }
  }

  lemma {:induction false} PlusAssoc(a: Option<int>, b: Option<int>, op: char, c: Option<int>)
    ensures Plus(op, Plus('+', a, b), c) == Plus('+', a, Plus(op, b, c))
  {
  }

  function Wrapped(n: Option<int>): Option<int> {
    match n
    case Some(v) => Some(Wrap64(v))
    case None => None
  }

  lemma {:induction false} WrapShift(n: int, q: int)
    ensures Wrap64(n + q * TWO_64) == Wrap64(n)
  {
    var x := n - MIN_INT64;
    var d, r := x / TWO_64, x % TWO_64;
    assert x + q * TWO_64 == (d + q) * TWO_64 + r;
  }

  // How many times 2^64 wrapping takes off.
  function Turns(n: int): (q: int)
    ensures n == Wrap64(n) + q * TWO_64
  {
    (n - MIN_INT64) / TWO_64
  }

  lemma {:induction false} WrapOnce(a: int, b: int)
    ensures Wrap64(Wrap64(a) + Wrap64(b)) == Wrap64(a + b)
    ensures Wrap64(Wrap64(a) - Wrap64(b)) == Wrap64(a - b)
  {
    WrapShift(Wrap64(a) + Wrap64(b), Turns(a) + Turns(b));
    WrapShift(Wrap64(a) - Wrap64(b), Turns(a) - Turns(b));
  }

  // An integer result, or an error where there is none.
  ghost predicate Gives(r: Result<Value>, n: Option<int>) {
    match n
    case Some(v) => r == Ok(Int(Wrap64(v)))
    case None => r.Err?
  }

  // An expression split at an operator, in terms of its sides.
  lemma {:induction false} EvalAtGives(e: string, op: char, i: int, leaf: Leaf, l: string, r: string, a: Option<int>, b: Option<int>)
    requires 0 < i <= |e| - 3 && l == e[..i] && r == e[i + 3..] && op in "+-"
    requires IntOf(Eval(l, leaf)) == Wrapped(a) && IntOf(Eval(r, leaf)) == Wrapped(b)
    ensures Gives(EvalAt(e, op, i, leaf), Plus(op, a, b))
  {
    if Eval(l, leaf).Ok? && Eval(r, leaf).Ok? { CombineGives(op, Eval(l, leaf).value, Eval(r, leaf).value, a, b); }
  }

  lemma {:induction false} CombineGives(op: char, x: Value, y: Value, a: Option<int>, b: Option<int>)
    requires op in "+-" && ToInt(x) == Wrapped(a) && ToInt(y) == Wrapped(b)
    ensures Gives(Combine(op, x, y), Plus(op, a, b))
  {
    if a.Some? && b.Some? { WrapOnce(a.value, b.value); }
  }

  lemma {:induction false} SumSides(first: string, rest: seq<Item>, k: nat, leaf: Leaf)
    requires Chain(first, rest) && k < |rest| && (rest[k].op == '+' || k == |rest| - 1)
    ensures Sum(first, rest, leaf) == Plus(rest[k].op, Sum(first, rest[..k], leaf), Sum(rest[k].term, rest[k + 1..], leaf))
  {
    if rest[k].op == '+' {
      assert rest == rest[..k] + [rest[k]] + rest[k + 1..];
      SumSplit(first, rest[..k], rest[k], rest[k + 1..], leaf);
    }
  }

  lemma {:induction false} PlusIsOperator(first: string, rest: seq<Item>, j: nat)
    requires Followed(rest) && LastSign(Tokens(first, rest), '+') == j
    ensures j % 2 == 1
  {
    TokenIs(first, rest, j);
    TokenIs(first, rest, j + 1);
  }

  // A chain whose plus terms are followed is split at one of its own operators: a plus, or its last one.
  lemma {:induction false} SplitsAtOperator(first: string, rest: seq<Item>) returns (k: nat)
    requires Chain(first, rest) && Followed(rest) && rest != []
    ensures k < |rest| && SplitAt(Tokens(first, rest)) == 2 * k + 1 && (rest[k].op == '+' || k == |rest| - 1)
  {
    var ts := Tokens(first, rest);
    var j := LastSign(ts, '+');
    if j > 0 {
      PlusIsOperator(first, rest, j);
      TokenIs(first, rest, j);
      k := j / 2;
    } else {
      k := |rest| - 1;
      assert ts[2 * k + 1] == [rest[k].op] && rest[k].op in "+-";
      assert ts[2 * k + 1] != "+";
    }
  }

  // A chain evaluates to its left-to-right sum in 64 bits, although it is split at its last plus before
  // any minus; it is an error exactly when one of its terms is no integer.
  lemma {:induction false} ChainIsSummed(first: string, rest: seq<Item>, leaf: Leaf)
    requires Chain(first, rest) && Followed(rest)
    ensures IntOf(Eval(Write(first, rest), leaf)) == Wrapped(Sum(first, rest, leaf))
    ensures rest != [] ==> Gives(Eval(Write(first, rest), leaf), Sum(first, rest, leaf))
    decreases |rest|
  {
    TokensAreWords(first, rest);
    WriteIsJoin(first, rest);
    EvalSplits(Tokens(first, rest), leaf);
    if rest != [] {
      var k := SplitsAtOperator(first, rest);
      SumSides(first, rest, k, leaf);
      ChainSides(first, rest, k);
      TokensSplit(first, rest, k);
      WriteIsJoin(first, rest[..k]);
      SidesGive(first, rest, k, leaf, Write(first, rest), Write(first, rest[..k]), Write(rest[k].term, rest[k + 1..]));
    }
  }

  lemma {:induction false} SidesGive(first: string, rest: seq<Item>, k: nat, leaf: Leaf, e: string, l: string, r: string)
    requires Chain(first, rest) && Followed(rest) && k < |rest|
    requires l == Write(first, rest[..k]) && r == Write(rest[k].term, rest[k + 1..])
    requires 0 < |l| <= |e| - 3 && l == e[..|l|] && r == e[|l| + 3..]
    ensures Gives(EvalAt(e, rest[k].op, |l|, leaf),
      Plus(rest[k].op, Sum(first, rest[..k], leaf), Sum(rest[k].term, rest[k + 1..], leaf)))
    decreases |rest|, 0
  {
    ChainIsSummed(first, rest[..k], leaf);
    ChainIsSummed(rest[k].term, rest[k + 1..], leaf);
    EvalAtGives(e, rest[k].op, |l|, leaf, l, r, Sum(first, rest[..k], leaf), Sum(rest[k].term, rest[k + 1..], leaf));
  }

  // ---- where a term is a sign ------------------------------------------------------------

  // Words with a space in them stand for nothing.
  ghost predicate PlainLeaf(leaf: Leaf) { forall w | ' ' in w :: leaf(w).Err? }

  lemma {:induction false} SpacedIsNoNat(s: string)
    requires ' ' in s
    ensures ParseNat(s) == None
  {
    var n := |s| - 1;
    if s[n] != ' ' {
      assert s == s[..n] + [s[n]];
      SpacedIsNoNat(s[..n]);
    }
  }

  lemma {:induction false} SpacedIsNoNumber(s: string)
    requires ' ' in s
    ensures ParseInt64(s) == None
  {
    SpacedIsNoNat(s);
    if s[0] in "+-" {
      assert s == [s[0]] + s[1..];
      SpacedIsNoNat(s[1..]);
    }
  }

  lemma {:induction false} AtIsError(e: string, op: char, i: int, leaf: Leaf, l: string, r: string)
    requires 0 < i <= |e| - 3 && l == e[..i] && r == e[i + 3..]
    requires Eval(l, leaf).Err? || Eval(r, leaf).Err?
    ensures EvalAt(e, op, i, leaf).Err?
  {
  }

  lemma {:induction false} SideIsError(ts: seq<string>, k: nat, leaf: Leaf)
    requires Words(ts) && SplitAt(ts) == k
    requires Eval(Join(ts[..k]), leaf).Err? || Eval(Join(ts[k + 1..]), leaf).Err?
    ensures Eval(Join(ts), leaf).Err?
  {
    EvalSplits(ts, leaf);
    Sides(ts, k);
    AtIsError(Join(ts), ts[k][0], |Join(ts[..k])|, leaf, Join(ts[..k]), Join(ts[k + 1..]));
  }

  lemma {:induction false} SpacedWord(ts: seq<string>, leaf: Leaf)
    requires Words(ts) && |ts| >= 2 && PlainLeaf(leaf)
    ensures EvalWord(Join(ts), leaf).Err?
  {
    var s := Join(ts);
    assert s[|Join(ts[..|ts| - 1])|] == ' ';
    SpacedIsNoNumber(s);
  }

  // An even number of words is nothing that can be evaluated: however it is split, a side has an even number
  // again.
  lemma {:induction false} EvenIsError(ts: seq<string>, leaf: Leaf)
    requires Words(ts) && |ts| % 2 == 0 && PlainLeaf(leaf)
    ensures Eval(Join(ts), leaf).Err?
    decreases |ts|, 1
  {
    var k := SplitAt(ts);
    if k == -1 {
      EvalSplits(ts, leaf);
      SpacedWord(ts, leaf);
    } else {
      OneSideEven(ts, k);
      EvenSide(ts, k, ts[..k], ts[k + 1..], leaf);
    }
  }

  lemma {:induction false} WordsOfSides(ts: seq<string>, k: nat)
    requires Words(ts) && 0 < k < |ts| - 1
    ensures Words(ts[..k]) && Words(ts[k + 1..])
  {
  }

  lemma {:induction false} OneSideEven(ts: seq<string>, k: nat)
    requires Words(ts) && |ts| % 2 == 0 && SplitAt(ts) == k
    ensures Words(ts[..k]) && Words(ts[k + 1..]) && (|ts[..k]| % 2 == 0 || |ts[k + 1..]| % 2 == 0)
  {
    WordsOfSides(ts, k);
    Parity(|ts|, k);
  }

  lemma {:induction false} EvenSide(ts: seq<string>, k: nat, l: seq<string>, r: seq<string>, leaf: Leaf)
    requires Words(ts) && PlainLeaf(leaf) && SplitAt(ts) == k && l == ts[..k] && r == ts[k + 1..]
    requires Words(l) && Words(r) && (|l| % 2 == 0 || |r| % 2 == 0)
    ensures Eval(Join(ts), leaf).Err?
    decreases |ts|, 0
  {
    if |l| % 2 == 0 { EvenIsError(l, leaf); } else { EvenIsError(r, leaf); }
    SideIsError(ts, k, leaf);
  }

  // One of the sides of an even number of words is even.
  lemma {:induction false} Parity(n: nat, k: nat)
    requires n % 2 == 0 && k < n
    ensures k % 2 == 0 || (n - k - 1) % 2 == 0
  {
  }

  // A term "+" between operators that no plus follows is taken for an operator, and that is an error.
  lemma {:induction false} StrayPlusIsError(first: string, rest: seq<Item>, leaf: Leaf)
    requires Chain(first, rest) && !Followed(rest) && PlainLeaf(leaf)
    ensures Eval(Write(first, rest), leaf).Err?
    decreases |rest|, 1
  {
    var i :| 0 <= i < |rest| - 1 && rest[i].term == "+" && rest[i + 1].op != '+';
    var k, m := StraySplit(first, rest, i);
    TokensAreWords(first, rest);
    WriteIsJoin(first, rest);
    if k == 2 * m {
      EvenOnTheLeft(Tokens(first, rest), m, k, leaf);
    } else {
      StrayOnTheLeft(first, rest, m, k, i, leaf);
    }
  }

  // The split lies at a term or behind the operator after the stray one.
  lemma {:induction false} StraySplit(first: string, rest: seq<Item>, i: nat) returns (k: nat, m: nat)
    requires Chain(first, rest) && i < |rest| - 1 && rest[i].term == "+" && rest[i + 1].op != '+'
    ensures SplitAt(Tokens(first, rest)) == k < 2 * |rest| && (k == 2 * m || (k == 2 * m + 1 && i + 1 < m))
  {
    var ts := Tokens(first, rest);
    assert ts[2 * i + 2] == rest[i].term;
    assert ts[2 * i + 3] == ts[2 * (i + 1) + 1] == [rest[i + 1].op];
    k := SplitAt(ts);
    m := k / 2;
    assert k == LastSign(ts, '+') >= 2 * i + 2;
  }

  lemma {:induction false} EvenOnTheLeft(ts: seq<string>, m: nat, k: nat, leaf: Leaf)
    requires Words(ts) && PlainLeaf(leaf) && SplitAt(ts) == k == 2 * m
    ensures Eval(Join(ts), leaf).Err?
  {
    WordsOfSides(ts, k);
    EvenSide(ts, k, ts[..k], ts[k + 1..], leaf);
  }

  lemma {:induction false} StrayOnTheLeft(first: string, rest: seq<Item>, m: nat, k: nat, i: nat, leaf: Leaf)
    requires Chain(first, rest) && Words(Tokens(first, rest)) && PlainLeaf(leaf)
    requires i + 1 < m < |rest| && rest[i].term == "+" && rest[i + 1].op != '+'
    requires SplitAt(Tokens(first, rest)) == k == 2 * m + 1
    ensures Eval(Join(Tokens(first, rest)), leaf).Err?
    decreases |rest|, 0
  {
    var left := rest[..m];
    assert left[i].term == "+" && left[i + 1].op != '+';
    TokensSplit(first, rest, m);
    WriteIsJoin(first, left);
    StrayPlusIsError(first, left, leaf);
    SideIsError(Tokens(first, rest), k, leaf);
  }

  // Of chains of any words, signs among them, exactly those are summed in which a plus follows every term
  // "+" that stands between operators; any other is an error.
  lemma {:induction false} SummedIffFollowed(first: string, rest: seq<Item>, leaf: Leaf)
    requires Chain(first, rest) && PlainLeaf(leaf)
    ensures IntOf(Eval(Write(first, rest), leaf)) == if Followed(rest) then Wrapped(Sum(first, rest, leaf)) else None
    ensures !Followed(rest) ==> Eval(Write(first, rest), leaf).Err?
  {
    if Followed(rest) {
      ChainIsSummed(first, rest, leaf);
    } else {
      StrayPlusIsError(first, rest, leaf);
    }
  }

  // "1 - + - 2" is no sum of 1, the term "+" and 2.
  lemma {:induction false} SignIsNoTerm(leaf: Leaf)
    requires leaf("+") == Ok(Int(5)) && leaf("1 -").Err?
    ensures Write("1", [Item('-', "+"), Item('-', "2")]) == "1 - + - 2"
    ensures Sum("1", [Item('-', "+"), Item('-', "2")], leaf) == Some(-6)
    ensures Eval("1 - + - 2", leaf).Err?
  {
    SignWritten(leaf);
    SignSplit(leaf);
  }

  lemma {:induction false} SignWritten(leaf: Leaf)
    requires leaf("+") == Ok(Int(5))
    ensures Write("1", [Item('-', "+"), Item('-', "2")]) == "1 - + - 2"
    ensures Sum("1", [Item('-', "+"), Item('-', "2")], leaf) == Some(-6)
  {
    var rest := [Item('-', "+"), Item('-', "2")];
    assert rest[..1] == [Item('-', "+")] && rest[..1][..0] == [];
    assert Write("1", rest[..1]) == "1 - +";
    Digits();
    assert Sum("1", rest[..1], leaf) == Some(-4);
  }

  lemma {:induction false} Digits()
    ensures ParseInt64("1") == Some(1) && ParseInt64("2") == Some(2) && ParseInt64("+") == None && ParseInt64("1 -") == None
  {
    assert "+"[1..] == "";
  }

  lemma {:induction false} SignSplit(leaf: Leaf)
    requires leaf("1 -").Err?
    ensures Eval("1 - + - 2", leaf).Err?
  {
    var ts := ["1", "-", "+", "-", "2"];
    FiveWords(ts);
    assert Words(ts[..2]) && SplitAt(ts[..2]) == -1;
    EvalSplits(ts[..2], leaf);
    Digits();
    assert SplitAt(ts) == 2;
    SideIsError(ts, 2, leaf);
  }

  lemma {:induction false} FiveWords(ts: seq<string>)
    requires ts == ["1", "-", "+", "-", "2"]
    ensures Words(ts) && Join(ts) == "1 - + - 2" && Join(ts[..2]) == "1 -" && SplitAt(ts) == 2
  {
    assert ts[..4][..3] == ts[..3] && ts[..3][..2] == ts[..2] && ts[..2][..1] == ["1"];
    assert Join(ts[..2]) == "1 -";
    assert Join(ts[..3]) == "1 - +";
    assert Join(ts[..4]) == "1 - + -";
    assert ts[..4][2] == "+";
  }
}
