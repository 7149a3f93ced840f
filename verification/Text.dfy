/** Text as the Go code sees it: a string is a sequence of bytes, so here one
    char stands for one byte. */
module Text {

  /** Go lengths and ints are 64-bit signed. */
  const INT64_LIMIT: int := 0x8000_0000_0000_0000

  function Pow10(k: nat): (p: nat)
    ensures p >= 1
  {
    if k == 0 then 1 else 10 * Pow10(k - 1)
  }

  /** `%d` for a non-negative number. */
  function Decimal(n: nat): (s: string)
    ensures |s| >= 1
  {
    if n < 10 then [('0' as int + n) as char] else Decimal(n / 10) + [('0' as int + n % 10) as char]
  }

  /** The number that digits spell. */
  function Value(s: string): int {
    if s == "" then 0 else 10 * Value(s[..|s| - 1]) + (s[|s| - 1] as int - '0' as int)
  }

  /** `%d` spells the number in digits, with no zero in front. */
  lemma {:induction false} DecimalMeaning(n: nat)
    ensures Value(Decimal(n)) == n && forall c :: c in Decimal(n) ==> '0' <= c <= '9'
    ensures Decimal(n)[0] == '0' <==> n == 0
  {
    if n >= 10 {
      DecimalMeaning(n / 10);
      assert Decimal(n)[..|Decimal(n)| - 1] == Decimal(n / 10);
    }
  }

  lemma {:induction false} DecimalLength(n: nat, k: nat)
    requires 1 <= k && n < Pow10(k)
    ensures |Decimal(n)| <= k
  {
    if n >= 10 {
      assert k > 1 by {
        assert Pow10(1) == 10;
      }
      DecimalLength(n / 10, k - 1);
    }
  }

  lemma Int64Digits(n: nat)
    requires n < INT64_LIMIT
    ensures |Decimal(n)| <= 19
  {
    assert Pow10(6) == 1_000_000;
    assert Pow10(12) == 1_000_000_000_000;
    assert Pow10(19) == 10_000_000_000_000_000_000;
    DecimalLength(n, 19);
  }

  /** utf8.RuneStart: the byte does not continue a rune. */
  predicate RuneStart(b: char) {
    b as int < 0x80 || b as int >= 0xC0
  }

  /** The last place at or before `cut` where a rune starts, 0 when there is none. */
  function RuneCut(s: string, cut: nat): (c: nat)
    requires cut < |s|
    ensures c <= cut && (c == 0 || RuneStart(s[c]))
    ensures forall k :: c < k <= cut ==> !RuneStart(s[k])
  {
    if cut == 0 || RuneStart(s[cut]) then cut else RuneCut(s, cut - 1)
  }

  /** The first place at or after `from` where a rune starts, |s| when there is none. */
  function RuneSkip(s: string, from: nat): (c: nat)
    requires from <= |s|
    ensures from <= c <= |s| && (c == |s| || RuneStart(s[c]))
    ensures forall k :: from <= k < c ==> !RuneStart(s[k])
    decreases |s| - from
  {
    if from == |s| || RuneStart(s[from]) then from else RuneSkip(s, from + 1)
  }

  function Truncated(s: string, max: nat): (t: string)
    ensures t <= s && |t| <= max
  {
    if |s| <= max then s else s[..RuneCut(s, max)]
  }

  /** truncateRunes: cut `s` to at most `max` bytes without splitting a rune. */
  method TruncateRunes(s: string, max: nat) returns (t: string)
    ensures t == Truncated(s, max)
  {
    if |s| <= max {
      return s;
    }
    var cut := max;
    while cut > 0 && !RuneStart(s[cut])
      invariant 0 <= cut <= max && RuneCut(s, cut) == RuneCut(s, max)
    {
      cut := cut - 1;
    }
    t := s[..cut];
  }
}
