/** Hexadecimal and decimal text, as the keys of the store spell it. */
module Text {
  import opened Base

  const COLON: Byte := 58

  function HexDigit(n: nat): (d: Byte)
    requires n < 16
    ensures d != COLON
  {
    if n < 10 then 48 + n else 87 + n
  }

  /** `hex::encode`. */
  function Hex(bytes: Bytes): (text: Bytes)
    ensures COLON !in text
  {
    if bytes == [] then [] else [HexDigit(bytes[0] / 16), HexDigit(bytes[0] % 16)] + Hex(bytes[1..])
  }

  lemma HexDigitInjective(m: nat, n: nat)
    requires m < 16 && n < 16 && HexDigit(m) == HexDigit(n)
    ensures m == n
  {
  }

  lemma {:induction false} HexInjective(a: Bytes, b: Bytes)
    requires Hex(a) == Hex(b)
    ensures a == b
    decreases |a|
  {
    if a == [] || b == [] {
      assert a == b;
    } else {
      assert Hex(a)[0] == Hex(b)[0] && Hex(a)[1] == Hex(b)[1];
      HexDigitInjective(a[0] / 16, b[0] / 16);
      HexDigitInjective(a[0] % 16, b[0] % 16);
      assert Hex(a)[2..] == Hex(a[1..]) && Hex(b)[2..] == Hex(b[1..]);
      HexInjective(a[1..], b[1..]);
      assert a == [a[0]] + a[1..] && b == [b[0]] + b[1..];
    }
  }

  /** A number in decimal, without leading zeros. */
  function Decimal(n: nat): (text: Bytes)
    ensures text != [] && COLON !in text
  {
    if n < 10 then [48 + n] else Decimal(n / 10) + [48 + n % 10]
  }

  lemma {:induction false} DecimalInjective(m: nat, n: nat)
    requires Decimal(m) == Decimal(n)
    ensures m == n
  {
    var dm, dn := Decimal(m), Decimal(n);
    assert dm[|dm| - 1] == dn[|dn| - 1];
    if m >= 10 && n >= 10 {
      assert dm[..|dm| - 1] == Decimal(m / 10) && dn[..|dn| - 1] == Decimal(n / 10);
      DecimalInjective(m / 10, n / 10);
    }
  }

  /** The only place a text without a colon can end before a colon. */
  lemma SplitAtFirst(a: Bytes, b: Bytes, x: Bytes, y: Bytes)
    requires COLON !in a && COLON !in x && a + [COLON] + b == x + [COLON] + y
    ensures a == x && b == y
  {
    var s, t := a + [COLON] + b, x + [COLON] + y;
    assert s[|a|] == COLON && t[|x|] == COLON;
    assert forall i :: 0 <= i < |a| ==> s[i] == a[i];
    assert forall i :: 0 <= i < |x| ==> t[i] == x[i];
    assert |a| == |x|;
    assert a == s[..|a|] && x == t[..|x|] && b == s[|a| + 1..] && y == t[|x| + 1..];
  }

  lemma SplitAtLast(a: Bytes, b: Bytes, x: Bytes, y: Bytes)
    requires COLON !in b && COLON !in y && a + [COLON] + b == x + [COLON] + y
    ensures a == x && b == y
  {
    var s, t := a + [COLON] + b, x + [COLON] + y;
    assert s[|a|] == COLON && t[|x|] == COLON;
    assert forall i :: |a| < i < |s| ==> s[i] == b[i - |a| - 1] && s[i] != COLON;
    assert forall i :: |x| < i < |t| ==> t[i] == y[i - |x| - 1] && t[i] != COLON;
    assert |a| == |x|;
    assert a == s[..|a|] && x == t[..|x|] && b == s[|a| + 1..] && y == t[|x| + 1..];
  }

  /** The order of byte strings: by the first difference, a proper prefix first. */
  predicate LexLess(a: Bytes, b: Bytes)
  {
    if b == [] then false
    else if a == [] then true
    else if a[0] != b[0] then a[0] < b[0]
    else LexLess(a[1..], b[1..])
  }

  /** `a` is a proper prefix of `b`, or smaller at the first index where they differ. */
  ghost predicate Before(a: Bytes, b: Bytes)
  {
    a < b || exists i: nat :: FirstDifference(a, b, i) && a[i] < b[i]
  }

  predicate FirstDifference(a: Bytes, b: Bytes, i: nat)
  {
    i < |a| && i < |b| && a[..i] == b[..i] && a[i] != b[i]
  }

  lemma {:induction false} LexLessIff(a: Bytes, b: Bytes)
    ensures LexLess(a, b) <==> Before(a, b)
  {
    if a != [] && b != [] {
      if a[0] == b[0] {
        LexLessIff(a[1..], b[1..]);
        BeforeTail(a, b);
      } else if a[0] < b[0] {
        assert FirstDifference(a, b, 0);
      } else {
        forall i: nat | 0 < i < |a| && i < |b| ensures a[..i] != b[..i] { assert a[..i][0] != b[..i][0]; }
      }
    }
  }

  lemma BeforeTail(a: Bytes, b: Bytes)
    requires a != [] && b != [] && a[0] == b[0]
    ensures Before(a, b) <==> Before(a[1..], b[1..])
  {
    assert a == [a[0]] + a[1..] && b == [b[0]] + b[1..];
    if i: nat :| FirstDifference(a, b, i) && a[i] < b[i] { DifferenceTail(a, b, i - 1); }
    if i: nat :| FirstDifference(a[1..], b[1..], i) && a[1..][i] < b[1..][i] { DifferenceTail(a, b, i); }
  }

  lemma DifferenceTail(a: Bytes, b: Bytes, i: nat)
    requires a != [] && b != [] && a[0] == b[0]
    ensures FirstDifference(a, b, i + 1) <==> FirstDifference(a[1..], b[1..], i)
  {
    if i + 1 < |a| && i + 1 < |b| {
      assert a[..i + 1] == [a[0]] + a[1..][..i] && b[..i + 1] == [b[0]] + b[1..][..i];
      assert a[1..][..i] == a[..i + 1][1..] && b[1..][..i] == b[..i + 1][1..];
    }
  }

  lemma {:induction false} LexTotal(a: Bytes, b: Bytes)
    ensures !(LexLess(a, b) && LexLess(b, a))
    ensures LexLess(a, b) || LexLess(b, a) <==> a != b
  {
    if a != [] && b != [] {
      LexTotal(a[1..], b[1..]);
      if a[0] == b[0] && a[1..] == b[1..] { assert a == [a[0]] + a[1..] == b; }
    }
  }

  lemma {:induction false} LexTransitive(a: Bytes, b: Bytes, c: Bytes)
    requires LexLess(a, b) && LexLess(b, c)
    ensures LexLess(a, c)
  {
    if a != [] && a[0] == b[0] && b[0] == c[0] { LexTransitive(a[1..], b[1..], c[1..]); }
  }

  /** In ascending order the texts that start with `p` come first among those not below `p`, without a gap. */
  lemma {:induction false} PrefixBlock(p: Bytes, k: Bytes, later: Bytes)
    requires !LexLess(k, p) && LexLess(k, later) && p <= later
    ensures p <= k
  {
    if p != [] {
      assert later[0] == p[0];
      assert later[1..][..|p| - 1] == p[1..];
      PrefixBlock(p[1..], k[1..], later[1..]);
      assert k == [k[0]] + k[1..] && p == [p[0]] + p[1..];
    }
  }

  lemma {:induction false} PrefixNotBelow(p: Bytes, k: Bytes)
    requires p <= k
    ensures !LexLess(k, p)
  {
    if p != [] {
      assert k[1..][..|p| - 1] == p[1..];
      PrefixNotBelow(p[1..], k[1..]);
    }
  }
}
