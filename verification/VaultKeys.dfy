/** The keys the vLLM vault hands out: `vk-{hash}-{seq}`. */
module VaultKeys {
  import opened Common

  function DigitChar(d: nat): char
    requires d < 10
  {
    '0' + d as char
  }

  predicate IsDigit(c: char) { '0' <= c <= '9' }

  /** Decimal rendering of an unsigned counter. */
  function Decimal(n: nat): (s: string)
    ensures |s| > 0 && forall i :: 0 <= i < |s| ==> IsDigit(s[i])
  {
    if n < 10 then [DigitChar(n)] else Decimal(n / 10) + [DigitChar(n % 10)]
  }

  function VaultKey(hashHex: string, seqNo: nat): string {
    "vk-" + hashHex + "-" + Decimal(seqNo)
  }

  lemma {:induction false} DecimalInjective(a: nat, b: nat)
    requires Decimal(a) == Decimal(b)
    ensures a == b
  {
    DecimalLength(a);
    DecimalLength(b);
    if a >= 10 && b >= 10 {
      var s := Decimal(a);
      assert s[..|s| - 1] == Decimal(a / 10);
      assert Decimal(b)[..|s| - 1] == Decimal(b / 10);
      assert s[|s| - 1] == DigitChar(a % 10) && Decimal(b)[|s| - 1] == DigitChar(b % 10);
      DecimalInjective(a / 10, b / 10);
    }
  }

  lemma DecimalLength(n: nat)
    ensures n < 10 <==> |Decimal(n)| == 1
  {
    if n >= 10 {
      assert |Decimal(n)| == |Decimal(n / 10)| + 1;
    }
  }

  lemma NoDashInDigits(h: string, d: string)
    requires forall i :: 0 <= i < |d| ==> IsDigit(d[i])
    ensures forall j :: |h| < j < |h + "-" + d| ==> (h + "-" + d)[j] != '-'
  {
    forall j | |h| < j < |h + "-" + d| ensures (h + "-" + d)[j] != '-' {
      assert (h + "-" + d)[j] == d[j - |h| - 1];
    }
  }

  /** The counter is printed without dashes, so the last dash of a key splits it uniquely. */
  lemma SplitAtLastDash(h1: string, d1: string, h2: string, d2: string)
    requires forall i :: 0 <= i < |d1| ==> IsDigit(d1[i])
    requires forall i :: 0 <= i < |d2| ==> IsDigit(d2[i])
    requires h1 + "-" + d1 == h2 + "-" + d2
    ensures h1 == h2 && d1 == d2
  {
    var k := h1 + "-" + d1;
    assert k[|h1|] == '-' && (h2 + "-" + d2)[|h2|] == '-';
    NoDashInDigits(h1, d1);
    NoDashInDigits(h2, d2);
    assert h1 == k[..|h1|] && h2 == (h2 + "-" + d2)[..|h2|];
    assert d1 == k[|h1| + 1..] && d2 == (h2 + "-" + d2)[|h2| + 1..];
  }

  /** Two stores never share a key, whatever the hash strings are, unless they share hash and counter value. */
  lemma VaultKeyInjective(h1: string, s1: nat, h2: string, s2: nat)
    requires VaultKey(h1, s1) == VaultKey(h2, s2)
    ensures h1 == h2 && s1 == s2
  {
    assert VaultKey(h1, s1)[3..] == h1 + "-" + Decimal(s1);
    assert VaultKey(h2, s2)[3..] == h2 + "-" + Decimal(s2);
    SplitAtLastDash(h1, Decimal(s1), h2, Decimal(s2));
    DecimalInjective(s1, s2);
  }

  // ---- hexadecimal block hashes --------------------------------------------------------------

  function HexDigit(d: nat): char
    requires d < 16
  {
    "0123456789abcdef"[d]
  }

  function Hex(h: seq<byte>): string {
    if h == [] then "" else [HexDigit(h[0] / 16), HexDigit(h[0] % 16)] + Hex(h[1..])
  }

  lemma {:induction false} HexInjective(a: seq<byte>, b: seq<byte>)
    requires Hex(a) == Hex(b)
    ensures a == b
  {
    if a != [] && b != [] {
      var x, y := Hex(a), Hex(b);
      assert x[0] == HexDigit(a[0] / 16) && x[1] == HexDigit(a[0] % 16);
      assert y[0] == HexDigit(b[0] / 16) && y[1] == HexDigit(b[0] % 16);
      HexDigitInjective(a[0] / 16, b[0] / 16);
      HexDigitInjective(a[0] % 16, b[0] % 16);
      assert x[2..] == Hex(a[1..]) && y[2..] == Hex(b[1..]);
      HexInjective(a[1..], b[1..]);
    }
  }

  lemma HexDigitInjective(a: nat, b: nat)
    requires a < 16 && b < 16 && HexDigit(a) == HexDigit(b)
    ensures a == b
  {
  }
}
