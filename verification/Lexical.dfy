/** The order of strings by their first difference, as Go compares them. */
module Lexical {

  predicate Less(a: string, b: string) {
    if b == [] then false
    else if a == [] then true
    else a[0] < b[0] || (a[0] == b[0] && Less(a[1..], b[1..]))
  }

  // The strings are alike up to i, and there a ends or has the smaller character.
  ghost predicate SmallerAt(a: string, b: string, i: int) {
    0 <= i <= |a| && i < |b| && a[..i] == b[..i] && (i == |a| || a[i] < b[i])
  }

  lemma {:induction false} SmallerShifted(a: string, b: string, i: int)
    requires a != [] && b != [] && i > 0
    ensures SmallerAt(a, b, i) <==> a[0] == b[0] && SmallerAt(a[1..], b[1..], i - 1)
  {
    if i <= |a| && i < |b| {
      assert a[..i] == [a[0]] + a[1..][..i - 1] && b[..i] == [b[0]] + b[1..][..i - 1];
      if a[..i] == b[..i] {
        assert a[1..][..i - 1] == a[..i][1..] && b[1..][..i - 1] == b[..i][1..];
        assert a[..i][0] == b[..i][0];
      }
    }
  }

  lemma {:induction false} LessIs(a: string, b: string)
    ensures Less(a, b) <==> exists i :: SmallerAt(a, b, i)
  {
    if b != [] {
      if a == [] {
        assert SmallerAt(a, b, 0);
      } else {
        LessIs(a[1..], b[1..]);
        if a[0] < b[0] { assert SmallerAt(a, b, 0); }
        if a[0] == b[0] && Less(a[1..], b[1..]) {
          var i :| SmallerAt(a[1..], b[1..], i);
          SmallerShifted(a, b, i + 1);
          assert SmallerAt(a, b, i + 1);
        }
        if exists i :: SmallerAt(a, b, i) {
          var i :| SmallerAt(a, b, i);
          if i > 0 { SmallerShifted(a, b, i); }
        }
      }
    }
  }

  lemma {:induction false} LessIsTotal(a: string, b: string)
    ensures a == b || Less(a, b) || Less(b, a)
  {
    if a != [] && b != [] && a[0] == b[0] {
      LessIsTotal(a[1..], b[1..]);
      if a[1..] == b[1..] { assert a == [a[0]] + a[1..] && b == [b[0]] + b[1..]; }
    }
  }

  lemma {:induction false} LessIsStrict(a: string, b: string)
    requires Less(a, b)
    ensures !Less(b, a) && a != b
  {
    if a != [] && a[0] == b[0] { LessIsStrict(a[1..], b[1..]); }
  }

  lemma {:induction false} LessIsTransitive(a: string, b: string, c: string)
    requires Less(a, b) && Less(b, c)
    ensures Less(a, c)
  {
    if a != [] && a[0] == b[0] == c[0] { LessIsTransitive(a[1..], b[1..], c[1..]); }
  }
}
