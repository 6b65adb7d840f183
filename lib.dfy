/**
 * The stable hash of src/lib.rs (and its verbatim copy in src/download.rs):
 * 64-bit FNV-1a over the UTF-8 bytes of a string, rendered in decimal.
 * FNV-1a is the variant of section 2 of draft-eastlake-fnv, with the 64-bit
 * prime and offset basis of its sections 2.1 and 2.2. Arithmetic on `bv64`
 * wraps modulo 2^64, which is what `u64::wrapping_mul` does.
 */
module Lib {
  import opened Strings

  const FNV_OFFSET: bv64 := 0xcbf29ce484222325
  const FNV_PRIME: bv64 := 0x100000001b3

  /** One round: xor the byte into the low bits, then multiply by the prime mod 2^64. */
  function Step(h: bv64, b: bv8): bv64 {
    (h ^ (b as bv64)) * FNV_PRIME
  }

  /** The state after absorbing `bytes` one after the other, starting from `h`. */
  function Absorb(h: bv64, bytes: seq<bv8>): bv64
    decreases |bytes|
  {
    if bytes == [] then h else Absorb(Step(h, bytes[0]), bytes[1..])
  }

  /** FNV-1a of a byte string. */
  function Fnv1a(bytes: seq<bv8>): bv64 {
    Absorb(FNV_OFFSET, bytes)
  }

  /** Fold law: absorbing one more byte is one more round on the previous state. */
  lemma {:induction false} AbsorbSnoc(h: bv64, bytes: seq<bv8>, b: bv8)
    ensures Absorb(h, bytes + [b]) == Step(Absorb(h, bytes), b)
    decreases |bytes|
  {
    if bytes != [] {
      assert (bytes + [b])[1..] == bytes[1..] + [b];
      AbsorbSnoc(Step(h, bytes[0]), bytes[1..], b);
    }
  }

  /** Absorbing a concatenation is absorbing its two parts in turn. */
  lemma {:induction false} AbsorbConcat(h: bv64, a: seq<bv8>, b: seq<bv8>)
    ensures Absorb(h, a + b) == Absorb(Absorb(h, a), b)
    decreases |a|
  {
    if a != [] {
      assert (a + b)[1..] == a[1..] + b;
      AbsorbConcat(Step(h, a[0]), a[1..], b);
    } else {
      assert a + b == b;
    }
  }

  /** The FNV-1a state after `s ++ [b]` is ((state(s) ^ b) * PRIME) mod 2^64. */
  lemma Fnv1aFoldLaw(s: seq<bv8>, b: bv8)
    ensures Fnv1a(s + [b]) == Step(Fnv1a(s), b)
  {
    AbsorbSnoc(FNV_OFFSET, s, b);
  }

  /** The published test vector for the one-byte input "a". */
  lemma Fnv1aOfA()
    ensures Fnv1a([0x61]) == 0xaf63dc4c8601ec8c
  {
  }

  function DigitChar(d: nat): (c: char)
    requires d < 10
    ensures '0' <= c <= '9'
  {
    ('0' as int + d) as char
  }

  predicate IsDigits(s: string) {
    forall i :: 0 <= i < |s| ==> '0' <= s[i] <= '9'
  }

  /** A decimal numeral as `u64::to_string` prints one: digits only, no leading zero unless it is "0". */
  predicate IsCanonicalDecimal(s: string) {
    |s| >= 1 && IsDigits(s) && (s[0] == '0' ==> s == "0")
  }

  /** `to_string` of a non-negative integer. */
  function Decimal(n: nat): (r: string)
    ensures |r| >= 1 && IsDigits(r)
    ensures r[0] == '0' <==> n == 0
    ensures n == 0 ==> r == "0"
  {
    if n < 10 then [DigitChar(n)] else Decimal(n / 10) + [DigitChar(n % 10)]
  }

  /** The value a string of digits denotes. */
  function DecimalValue(s: string): nat
    requires IsDigits(s)
  {
    if s == [] then 0 else DecimalValue(s[..|s| - 1]) * 10 + (s[|s| - 1] as int - '0' as int)
  }

  function Pow10(k: nat): (p: nat)
    ensures p >= 1
  {
    if k == 0 then 1 else 10 * Pow10(k - 1)
  }

  /** Decimal is inverted by DecimalValue. */
  lemma {:induction false} DecimalRoundTrip(n: nat)
    ensures DecimalValue(Decimal(n)) == n
  {
    if n >= 10 {
      DecimalRoundTrip(n / 10);
      var r := Decimal(n);
      assert r[..|r| - 1] == Decimal(n / 10);
    }
  }

  /** A number below 10^k has at most k digits. */
  lemma {:induction false} DecimalLength(n: nat, k: nat)
    requires 1 <= k && n < Pow10(k)
    ensures |Decimal(n)| <= k
  {
    if n >= 10 {
      DecimalLength(n / 10, k - 1);
    }
  }

  /** Every u64 prints as 1 to 20 canonical decimal digits. */
  lemma U64DecimalShape(h: bv64)
    ensures IsCanonicalDecimal(Decimal(h as nat)) && |Decimal(h as nat)| <= 20
  {
    assert Pow10(1) == 10;
    assert Pow10(2) == 100;
    assert Pow10(3) == 1000;
    assert Pow10(4) == 10000;
    assert Pow10(5) == 100000;
    assert Pow10(6) == 1000000;
    assert Pow10(7) == 10000000;
    assert Pow10(8) == 100000000;
    assert Pow10(9) == 1000000000;
    assert Pow10(10) == 10000000000;
    assert Pow10(11) == 100000000000;
    assert Pow10(12) == 1000000000000;
    assert Pow10(13) == 10000000000000;
    assert Pow10(14) == 100000000000000;
    assert Pow10(15) == 1000000000000000;
    assert Pow10(16) == 10000000000000000;
    assert Pow10(17) == 100000000000000000;
    assert Pow10(18) == 1000000000000000000;
    assert Pow10(19) == 10000000000000000000;
    assert Pow10(20) == 100000000000000000000;
    DecimalLength(h as nat, 20);
  }

  /** The specification of `hash`: FNV-1a of the UTF-8 bytes, printed in decimal. */
  function HashString(s: string): (r: string)
    ensures IsCanonicalDecimal(r) && 1 <= |r| <= 20
    ensures DecimalValue(r) == Fnv1a(Utf8(s)) as nat
  {
    var h := Fnv1a(Utf8(s));
    U64DecimalShape(h);
    DecimalRoundTrip(h as nat);
    Decimal(h as nat)
  }

  /** Distinct numbers print differently, so equal hash strings mean equal FNV-1a states. */
  lemma DecimalInjective(m: nat, n: nat)
    ensures Decimal(m) == Decimal(n) <==> m == n
  {
    if Decimal(m) == Decimal(n) {
      DecimalRoundTrip(m);
      DecimalRoundTrip(n);
    }
  }

  /** The empty string hashes to the offset basis. */
  lemma HashOfEmpty()
    ensures HashString("") == "14695981039346656037"
  {
    assert Fnv1a(Utf8("")) as nat == 14695981039346656037;
    OffsetBasisDigits();
  }

  /** The offset basis printed in decimal, built up digit by digit. */
  lemma OffsetBasisDigits()
    ensures Decimal(14695981039346656037) == "14695981039346656037"
  {
    MiddleDigits();
    assert Decimal(1469598103934665) == "1469598103934665";
    assert Decimal(14695981039346656) == "14695981039346656";
    assert Decimal(146959810393466560) == "146959810393466560";
    assert Decimal(1469598103934665603) == "1469598103934665603";
  }

  /** The first fifteen digits of the offset basis. */
  lemma MiddleDigits()
    ensures Decimal(146959810393466) == "146959810393466"
  {
    LeadingDigits();
    assert Decimal(14695981039) == "14695981039";
    assert Decimal(146959810393) == "146959810393";
    assert Decimal(1469598103934) == "1469598103934";
    assert Decimal(14695981039346) == "14695981039346";
  }

  /** The first ten digits of the offset basis. */
  lemma LeadingDigits()
    ensures Decimal(1469598103) == "1469598103"
  {
    assert Decimal(1) == "1";
    assert Decimal(14) == "14";
    assert Decimal(146) == "146";
    assert Decimal(1469) == "1469";
    assert Decimal(14695) == "14695";
    assert Decimal(146959) == "146959";
    assert Decimal(1469598) == "1469598";
    assert Decimal(14695981) == "14695981";
    assert Decimal(146959810) == "146959810";
  }

  /** The state after one more byte of a prefix. */
  lemma Fnv1aPrefix(bytes: seq<bv8>, i: nat)
    requires i < |bytes|
    ensures Fnv1a(bytes[..i + 1]) == Step(Fnv1a(bytes[..i]), bytes[i])
  {
    assert bytes[..i + 1] == bytes[..i] + [bytes[i]];
    Fnv1aFoldLaw(bytes[..i], bytes[i]);
  }

  /** `hash(s)`: the byte loop of src/lib.rs. */
  method Hash(s: string) returns (r: string)
    ensures r == Decimal(Fnv1a(Utf8(s)) as nat)
  {
    var bytes := Utf8(s);
    var hash := FNV_OFFSET;
    var i := 0;
    while i < |bytes|
      invariant 0 <= i <= |bytes|
      invariant hash == Fnv1a(bytes[..i])
    {
      Fnv1aPrefix(bytes, i);
      hash := Step(hash, bytes[i]);
      i := i + 1;
    }
    assert bytes[..i] == bytes;
    r := Decimal(hash as nat);
  }
}
