/** The parts of Python's `str` that the pipeline relies on: `endswith`, `lower`,
    `replace('.npy', '')`, `str(int)` and counting line breaks. */
module Text {

  /** `s.endswith(suffix)` */
  predicate EndsWith(s: string, suffix: string) {
    |suffix| <= |s| && s[|s| - |suffix|..] == suffix
  }

  /** `s.startswith(prefix)` */
  predicate StartsWith(s: string, prefix: string) {
    |prefix| <= |s| && s[..|prefix|] == prefix
  }

  predicate NoChar(s: string, c: char) {
    forall k :: 0 <= k < |s| ==> s[k] != c
  }

  /** `s.lower()` restricted to ASCII letters. */
  function LowerAscii(s: string): (r: string)
    ensures |r| == |s|
    ensures forall k :: 0 <= k < |s| ==> r[k] == LowerChar(s[k])
  {
    if s == [] then []
    else [LowerChar(s[0])] + LowerAscii(s[1..])
  }

  /** One character of `str.lower()` over ASCII: 'A'..'Z' map to 'a'..'z'. */
  function LowerChar(c: char): (d: char)
    ensures 'A' <= c <= 'Z' ==> 'a' <= d <= 'z' && d as int == c as int + 32
    ensures !('A' <= c <= 'Z') ==> d == c
  {
    if 'A' <= c <= 'Z' then (c as int + 32) as char else c
  }

  // ---------------------------------------------------------------------------
  // s.replace('.npy', '')

  const NPY: string := ".npy"

  /** An occurrence of ".npy" starts at index k of s. */
  predicate NpyAt(s: string, k: int) {
    0 <= k && k + 4 <= |s| && s[k] == '.' && s[k + 1] == 'n' && s[k + 2] == 'p' && s[k + 3] == 'y'
  }

  predicate ContainsNpy(s: string) {
    exists k :: 0 <= k < |s| && NpyAt(s, k)
  }

  /** `s.replace('.npy', '')`: scanning left to right, every non-overlapping
      occurrence of ".npy" is removed, wherever it stands in s. */
  function DropNpy(s: string): (r: string)
    ensures |r| <= |s|
  {
    if |s| < 4 then s
    else if s[..4] == NPY then DropNpy(s[4..])
    else [s[0]] + DropNpy(s[1..])
  }

  /** A string that holds no ".npy" is left as it is. */
  lemma {:induction false} DropNpyKeepsClean(s: string)
    requires !ContainsNpy(s)
    ensures DropNpy(s) == s
  {
    if |s| >= 4 {
      assert !NpyAt(s, 0);
      assert !ContainsNpy(s[1..]) by {
        forall k | 0 <= k < |s[1..]| && NpyAt(s[1..], k) ensures NpyAt(s, k + 1) { }
      }
      DropNpyKeepsClean(s[1..]);
      assert [s[0]] + s[1..] == s;
    }
  }

  /** ".npy" has no border, so an occurrence appended to b is removed as a whole
      and never merges with the end of b. */
  lemma {:induction false} DropNpyAcrossSeparator(b: string, c: string)
    ensures DropNpy(b + NPY + c) == DropNpy(b) + DropNpy(c)
    decreases |b|
  {
    var s := b + NPY + c;
    if b == [] {
      assert s[..4] == NPY && s[4..] == c;
    } else if |b| >= 4 && b[..4] == NPY {
      assert s[..4] == NPY;
      assert s[4..] == b[4..] + NPY + c;
      DropNpyAcrossSeparator(b[4..], c);
    } else {
      assert s[..4] != NPY by {
        if |b| < 4 {
          assert s[|b|] == '.';
        } else {
          assert s[..4] == b[..4];
        }
      }
      assert s[1..] == b[1..] + NPY + c;
      DropNpyAcrossSeparator(b[1..], c);
      if |b| < 4 {
        assert [b[0]] + b[1..] == b;
      }
    }
  }

  /** Removing ".npy" introduces no character that was not there. */
  lemma {:induction false} DropNpyKeepsOut(s: string, c: char)
    requires NoChar(s, c)
    ensures NoChar(DropNpy(s), c)
  {
    if |s| >= 4 {
      if s[..4] == NPY {
        DropNpyKeepsOut(s[4..], c);
      } else {
        DropNpyKeepsOut(s[1..], c);
      }
    }
  }

  // ---------------------------------------------------------------------------
  // str(int), as used by f-strings

  function DigitChar(d: nat): (c: char)
    requires d < 10
    ensures '0' <= c <= '9' && (c as int) - ('0' as int) == d
  {
    ((d + '0' as int) as char)
  }

  predicate AllDigits(s: string) {
    forall k :: 0 <= k < |s| ==> '0' <= s[k] <= '9'
  }

  /** Decimal digits, most significant first, without leading zeros. */
  function NatToString(n: nat): (r: string)
    ensures |r| >= 1 && AllDigits(r)
    ensures r[0] == '0' ==> n == 0
  {
    if n < 10 then [DigitChar(n)]
    else NatToString(n / 10) + [DigitChar(n % 10)]
  }

  /** Python's `str(i)` for an int. */
  function IntToString(i: int): string {
    if i < 0 then "-" + NatToString(-i) else NatToString(i)
  }

  /** Reads a run of decimal digits back. */
  function ParseDigits(s: string): nat
    requires AllDigits(s)
  {
    if s == [] then 0
    else 10 * ParseDigits(s[..|s| - 1]) + ((s[|s| - 1] as int) - ('0' as int))
  }

  /** Reads `str(i)` back. */
  function ParseInt(s: string): (r: int)
    requires |s| >= 1
    requires AllDigits(s) || (s[0] == '-' && AllDigits(s[1..]))
  {
    if s[0] == '-' then -(ParseDigits(s[1..]) as int) else ParseDigits(s)
  }

  lemma {:induction false} NatToStringRoundTrip(n: nat)
    ensures ParseDigits(NatToString(n)) == n
  {
    if n >= 10 {
      var r := NatToString(n);
      assert r[..|r| - 1] == NatToString(n / 10);
      NatToStringRoundTrip(n / 10);
    }
  }

  /** `str(i)` determines i: the level printed in a ledger row reads back as itself. */
  lemma IntToStringRoundTrip(i: int)
    ensures |IntToString(i)| >= 1
    ensures var s := IntToString(i); (AllDigits(s) || (s[0] == '-' && AllDigits(s[1..]))) && ParseInt(s) == i
  {
    var s := IntToString(i);
    if i < 0 {
      assert s[1..] == NatToString(-i);
      NatToStringRoundTrip(-i);
    } else {
      NatToStringRoundTrip(i);
    }
  }

  // ---------------------------------------------------------------------------
  // line counting

  function CountChar(s: string, c: char): (n: nat)
    ensures n <= |s|
  {
    if s == [] then 0 else CountChar(s[..|s| - 1], c) + (if s[|s| - 1] == c then 1 else 0)
  }

  lemma {:induction false} CountCharAppend(a: string, b: string, c: char)
    ensures CountChar(a + b, c) == CountChar(a, c) + CountChar(b, c)
    decreases |b|
  {
    if b != [] {
      assert (a + b)[..|a + b| - 1] == a + b[..|b| - 1];
      CountCharAppend(a, b[..|b| - 1], c);
    } else {
      assert a + b == a;
    }
  }

  lemma {:induction false} CountCharAbsent(s: string, c: char)
    requires NoChar(s, c)
    ensures CountChar(s, c) == 0
  {
    if s != [] {
      CountCharAbsent(s[..|s| - 1], c);
    }
  }
}
