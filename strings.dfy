/** Text helpers standing in for the Python string operations the packer relies on. */
module Strings {
  import opened Wrappers

  /** `s.startswith(prefix)`. */
  predicate StartsWith(s: string, prefix: string)
    ensures StartsWith(s, prefix) <==> |prefix| <= |s| && forall i :: 0 <= i < |prefix| ==> s[i] == prefix[i]
  {
    |prefix| <= |s| && s[..|prefix|] == prefix
  }

  /** `s.endswith(suffix)`. */
  predicate EndsWith(s: string, suffix: string)
  {
    |suffix| <= |s| && s[|s| - |suffix|..] == suffix
  }

  /** Number of occurrences of `c` in `s`. */
  function CountChar(s: string, c: char): nat
  {
    if s == [] then 0 else (if s[0] == c then 1 else 0) + CountChar(s[1..], c)
  }

  /** Index of the first occurrence of `c` in `s` (`s.find(c)`, with None for -1). */
  function IndexOf(s: string, c: char): (r: Option<nat>)
    ensures r.Some? ==> r.value < |s| && s[r.value] == c && c !in s[..r.value]
    ensures r.None? <==> c !in s
  {
    if s == [] then None
    else if s[0] == c then Some(0)
    else match IndexOf(s[1..], c)
      case None => None
      case Some(k) => assert s[1..][..k] == s[1..k + 1]; Some(k + 1)
  }

  lemma IndexOfAfter(p: string, c: char, rest: string)
    requires c !in p
    ensures IndexOf(p + [c] + rest, c) == Some(|p|)
  {
    var s := p + [c] + rest;
    assert s[|p|] == c;
    assert s[..|p|] == p;
  }

  /** Index of the last occurrence of `c` in `s` (`s.rfind(c)`, with None for -1). */
  function LastIndexOf(s: string, c: char): (r: Option<nat>)
    ensures r.Some? ==> r.value < |s| && s[r.value] == c && c !in s[r.value + 1..]
    ensures r.None? <==> c !in s
  {
    if s == [] then None
    else if s[|s| - 1] == c then Some(|s| - 1)
    else
      var r := LastIndexOf(s[..|s| - 1], c);
      assert r.Some? ==> s[r.value + 1..] == s[..|s| - 1][r.value + 1..] + [s[|s| - 1]];
      assert c in s[..|s| - 1] ==> c in s;
      assert c in s ==> c in s[..|s| - 1] by {
        if c in s {
          var k :| 0 <= k < |s| && s[k] == c;
          assert k < |s| - 1 && s[..|s| - 1][k] == c;
        }
      }
      r
  }

  /** ASCII case folding of one character; every other character is left as it is. */
  function LowerChar(c: char): char
  {
    if 'A' <= c <= 'Z' then (c as int + ('a' as int - 'A' as int)) as char else c
  }

  predicate IsLower(s: string)
  {
    forall i :: 0 <= i < |s| ==> !('A' <= s[i] <= 'Z')
  }

  /** `s.lower()` restricted to ASCII letters. */
  function Lower(s: string): (r: string)
    ensures |r| == |s| && IsLower(r)
    ensures forall i :: 0 <= i < |s| ==> r[i] == LowerChar(s[i])
  {
    seq(|s|, i requires 0 <= i < |s| => LowerChar(s[i]))
  }

  function DigitChar(d: nat): (c: char)
    requires d < 10
  {
    "0123456789"[d]
  }

  predicate IsDigit(c: char)
  {
    '0' <= c <= '9'
  }

  function DigitValue(c: char): (d: nat)
    requires IsDigit(c)
    ensures d < 10
  {
    c as int - '0' as int
  }

  lemma DigitRoundTrip(d: nat)
    requires d < 10
    ensures IsDigit(DigitChar(d)) && DigitValue(DigitChar(d)) == d
  {
  }

  /** `str(n)` for a non-negative integer: its decimal digits, without leading zeros. */
  function NatToString(n: nat): (r: string)
    ensures |r| >= 1
    ensures forall i :: 0 <= i < |r| ==> IsDigit(r[i])
    ensures |r| > 1 ==> r[0] != '0'
  {
    if n < 10 then [DigitChar(n)]
    else NatToString(n / 10) + [DigitChar(n % 10)]
  }

  /** The value of a string of decimal digits, read most significant first. */
  function DigitsValue(s: string): nat
    requires forall i :: 0 <= i < |s| ==> IsDigit(s[i])
  {
    if s == [] then 0 else DigitsValue(s[..|s| - 1]) * 10 + DigitValue(s[|s| - 1])
  }

  /** `int(s)` on a non-empty string of decimal digits; None for anything else. */
  function ParseNat(s: string): (r: Option<nat>)
    ensures r.Some? ==> |s| >= 1
    ensures r.Some? <==> |s| >= 1 && forall i :: 0 <= i < |s| ==> IsDigit(s[i])
  {
    if |s| >= 1 && forall i :: 0 <= i < |s| ==> IsDigit(s[i]) then Some(DigitsValue(s)) else None
  }

  /** Reading back the decimal text of a size gives the size. */
  lemma {:induction false} ParseNatToString(n: nat)
    ensures ParseNat(NatToString(n)) == Some(n)
  {
    var s := NatToString(n);
    if n < 10 {
      DigitRoundTrip(n);
      assert s == [DigitChar(n)];
      assert s[..|s| - 1] == [];
      assert DigitsValue(s) == DigitsValue([]) * 10 + DigitValue(DigitChar(n));
    } else {
      ParseNatToString(n / 10);
      DigitRoundTrip(n % 10);
      assert s[..|s| - 1] == NatToString(n / 10);
    }
  }

  /**
   * The extension `os.path.splitext(name)[1]` gives for a bare file name: from the last dot to
   * the end, provided some character before that dot is not a dot; otherwise empty (so
   * ".bashrc" and "..." have no extension, "a.tar.gz" has ".gz").
   */
  function Extension(name: string): (e: string)
    ensures e != [] ==> EndsWith(name, e) && e[0] == '.' && '.' !in e[1..]
  {
    match LastIndexOf(name, '.')
    case None => []
    case Some(d) => if AllDots(name[..d]) then [] else name[d..]
  }

  predicate AllDots(s: string)
  {
    s == [] || (s[0] == '.' && AllDots(s[1..]))
  }

  lemma {:induction false} AllDotsMeaning(s: string)
    ensures AllDots(s) <==> forall i :: 0 <= i < |s| ==> s[i] == '.'
  {
    if s != [] {
      AllDotsMeaning(s[1..]);
      assert forall i :: 1 <= i < |s| ==> s[i] == s[1..][i - 1];
    }
  }

  /**
   * The extension is empty or a dot followed by no other dot at the end of the name, and it is
   * non-empty exactly when some dot of the name has a non-dot character before it.
   */
  lemma ExtensionShape(name: string)
    ensures var e := Extension(name);
      && (e != [] ==> EndsWith(name, e) && e[0] == '.' && '.' !in e[1..])
      && (e != [] <==> exists d, i :: 0 <= i < d < |name| && name[d] == '.' && name[i] != '.')
  {
    match LastIndexOf(name, '.')
    case None =>
    case Some(d) =>
      AllDotsMeaning(name[..d]);
      if exists i :: 0 <= i < d && name[i] != '.' {
        ExtensionWitness(name, d);
      } else {
        ExtensionNone(name, d);
      }
  }

  lemma ExtensionWitness(name: string, d: nat)
    requires d < |name| && name[d] == '.'
    requires exists i :: 0 <= i < d && name[i] != '.'
    ensures exists d', i :: 0 <= i < d' < |name| && name[d'] == '.' && name[i] != '.'
  {
    var i :| 0 <= i < d && name[i] != '.';
    assert 0 <= i < d < |name| && name[d] == '.' && name[i] != '.';
  }

  lemma ExtensionNone(name: string, d: nat)
    requires d < |name| && name[d] == '.' && '.' !in name[d + 1..]
    requires forall i :: 0 <= i < d ==> name[i] == '.'
    ensures !exists d', i :: 0 <= i < d' < |name| && name[d'] == '.' && name[i] != '.'
  {
  }
}
