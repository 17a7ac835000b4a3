/** The parts of Go's `strings` and `fmt` packages that the mirrorer relies on. */
module Strings {

  /** strings.HasPrefix */
  predicate HasPrefix(s: string, prefix: string)
  {
    |prefix| <= |s| && s[..|prefix|] == prefix
  }

  lemma PrefixOfConcat(a: string, b: string)
    ensures HasPrefix(a + b, a)
  {
    assert (a + b)[..|a|] == a;
  }

  lemma PrefixTrans(s: string, t: string, p: string)
    requires HasPrefix(s, t) && HasPrefix(t, p)
    ensures HasPrefix(s, p)
  {
    assert s[..|p|] == s[..|t|][..|p|];
  }

  lemma PrefixExtend(x: string, d: string, p: string)
    requires HasPrefix(d, p)
    ensures HasPrefix(x + d, x + p)
  {
    assert (x + d)[..|x + p|] == x + d[..|p|];
  }

  /** strings.HasSuffix */
  predicate HasSuffix(s: string, suffix: string)
  {
    |suffix| <= |s| && s[|s| - |suffix|..] == suffix
  }

  /** strings.Contains: `sub` occurs somewhere in `s`. */
  predicate Contains(s: string, sub: string)
    decreases |s|
  {
    HasPrefix(s, sub) || (|s| > 0 && Contains(s[1..], sub))
  }

  /** A prefix of `s` is contained in `s`. */
  lemma PrefixIsContained(s: string, p: string)
    requires HasPrefix(s, p)
    ensures Contains(s, p)
  {
  }

  /** `Contains` agrees with the positional definition of an occurrence. */
  lemma {:induction false} ContainsAt(s: string, sub: string, i: nat)
    requires i + |sub| <= |s| && s[i..i + |sub|] == sub
    ensures Contains(s, sub)
    decreases i
  {
    if i > 0 {
      assert s[1..][i - 1..i - 1 + |sub|] == s[i..i + |sub|];
      ContainsAt(s[1..], sub, i - 1);
    }
  }

  predicate IsDigit(c: char)
  {
    '0' <= c <= '9'
  }

  function DigitChar(d: nat): (c: char)
    requires d < 10
    ensures IsDigit(c)
  {
    ('0' as int + d) as char
  }

  function DigitValue(c: char): nat
  {
    if IsDigit(c) then c as int - '0' as int else 0
  }

  /** Decimal rendering of a counter, as `fmt.Sprintf("%d", n)` does it. */
  function Itoa(n: nat): (s: string)
    ensures |s| >= 1
    ensures forall i :: 0 <= i < |s| ==> IsDigit(s[i])
    decreases n
  {
    if n < 10 then [DigitChar(n)] else Itoa(n / 10) + [DigitChar(n % 10)]
  }

  /** Reading a decimal string back: the partner of `Itoa`. */
  function Atoi(s: string): nat
    decreases |s|
  {
    if s == [] then 0 else Atoi(s[..|s| - 1]) * 10 + DigitValue(s[|s| - 1])
  }

  lemma {:induction false} AtoiItoa(n: nat)
    ensures Atoi(Itoa(n)) == n
    decreases n
  {
    var s := Itoa(n);
    if n < 10 {
      assert s[..|s| - 1] == [];
    } else {
      assert s[..|s| - 1] == Itoa(n / 10);
      AtoiItoa(n / 10);
    }
  }

  /** Distinct counters are rendered as distinct strings. */
  lemma ItoaInjective(a: nat, b: nat)
    requires a != b
    ensures Itoa(a) != Itoa(b)
  {
    AtoiItoa(a);
    AtoiItoa(b);
  }

  /** Cancelling a common prefix and suffix. */
  lemma CancelAround(a: string, x: string, y: string, b: string)
    requires a + x + b == a + y + b
    ensures x == y
  {
    assert |x| == |y|;
    assert x == (a + x + b)[|a|..|a| + |x|];
    assert y == (a + y + b)[|a|..|a| + |y|];
  }
}
