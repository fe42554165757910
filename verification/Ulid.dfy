/** Sortable identifiers (generate_ulid): 48 bits of milliseconds and 80 random bits, written in base 32 from the
    end of a 26-character list backwards. */
module Ulid {
  import opened Wrappers

  /** ULID_ALPHABET */
  function Alphabet(): (s: string)
    ensures |s| == 32
  {
    "0123456789ABCDEFGHJKMNPQRSTVWXYZ"
  }

  const LENGTH := 26

  datatype UlidError = TimestampOutOfRange

  function Power32(n: nat): nat {
    if n == 0 then 1 else 32 * Power32(n - 1)
  }

  // ---- Digits ------------------------------------------------------------

  function DigitChar(d: nat): char
    requires d < 32
  {
    Alphabet()[d]
  }

  predicate IsDigit(c: char) {
    c in Alphabet()
  }

  predicate Climbs(s: string) {
    forall i :: 0 <= i < |s| - 1 ==> s[i] < s[i + 1]
  }

  lemma {:induction false} ClimbsFurther(s: string, d: nat, e: nat)
    requires Climbs(s) && d < e < |s|
    ensures s[d] < s[e]
    decreases e
  {
    if d + 1 < e { ClimbsFurther(s, d, e - 1); }
  }

  lemma AlphabetClimbs()
    ensures Climbs(Alphabet())
  {
  }

  /** The digits, then the capital letters without I, L, O and U. */
  lemma DigitCharIs(d: nat)
    requires d < 32
    ensures DigitChar(d) as int ==
            if d < 10 then '0' as int + d
            else if d < 18 then 'A' as int + d - 10  // A to H
            else if d < 20 then 'J' as int + d - 18  // J and K
            else if d < 22 then 'M' as int + d - 20  // M and N
            else if d < 27 then 'P' as int + d - 22  // P to T
            else 'V' as int + d - 27                 // V to Z
  {
  }

  lemma DigitCharsInOrder(d: nat, e: nat)
    requires d < 32 && e < 32
    ensures DigitChar(d) < DigitChar(e) <==> d < e
    ensures DigitChar(d) == DigitChar(e) <==> d == e
  {
    AlphabetClimbs();
    hide Alphabet, Climbs;
    if d < e { ClimbsFurther(Alphabet(), d, e); }
    if e < d { ClimbsFurther(Alphabet(), e, d); }
  }

  function IndexIn(s: string, c: char): (d: nat)
    requires c in s
    ensures d < |s| && s[d] == c
  {
    if s[0] == c then 0 else IndexIn(s[1..], c) + 1
  }

  function Digit(c: char): nat
    requires IsDigit(c)
  {
    IndexIn(Alphabet(), c)
  }

  lemma CharOfDigit(c: char)
    requires IsDigit(c)
    ensures Digit(c) < 32 && DigitChar(Digit(c)) == c
  {
    hide Alphabet;
  }

  lemma DigitOfChar(d: nat)
    requires d < 32
    ensures IsDigit(DigitChar(d)) && Digit(DigitChar(d)) == d
  {
    hide Alphabet, IndexIn;
    CharOfDigit(DigitChar(d));
    DigitCharsInOrder(d, Digit(DigitChar(d)));
  }

  // ---- Base 32 -----------------------------------------------------------

  /** The last `n` digits of `v`. */
  function Encode(v: nat, n: nat): (s: string)
    ensures |s| == n
  {
    if n == 0 then "" else Encode(v / 32, n - 1) + [DigitChar(v % 32)]
  }

  predicate AllDigits(s: string) {
    forall i :: 0 <= i < |s| ==> IsDigit(s[i])
  }

  function Decode(s: string): nat
    requires AllDigits(s)
  {
    if s == "" then 0 else Decode(s[..|s| - 1]) * 32 + Digit(s[|s| - 1])
  }

  /** Nothing is lost: every number below 32^n is read back, and every string of n digits is some number's. */
  lemma {:induction false} DecodeOfEncode(v: nat, n: nat)
    requires v < Power32(n)
    ensures AllDigits(Encode(v, n)) && Decode(Encode(v, n)) == v
  {
    hide Alphabet, DigitChar, Digit, IsDigit;
    if n > 0 {
      QuotientInRange(v, n);
      DecodeOfEncode(v / 32, n - 1);
      DigitOfChar(v % 32);
      AppendDigit(Encode(v, n), Encode(v / 32, n - 1), v % 32);
    }
    hide Decode, Encode, Power32, AllDigits;
  }

  lemma AppendDigit(s: string, init: string, d: nat)
    requires d < 32 && s == init + [DigitChar(d)] && AllDigits(init)
    ensures AllDigits(s) && Decode(s) == Decode(init) * 32 + d
  {
    hide Alphabet, DigitChar, Digit, IsDigit;
    DigitOfChar(d);
    assert s[|s| - 1] == DigitChar(d) && s[..|s| - 1] == init;
  }

  lemma {:induction false} EncodeOfDecode(s: string)
    requires AllDigits(s)
    ensures Decode(s) < Power32(|s|) && Encode(Decode(s), |s|) == s
  {
    hide Alphabet;
    if s != "" {
      var init, c := s[..|s| - 1], s[|s| - 1];
      assert s == init + [c] && |s| == |init| + 1;
      EncodeOfDecode(init);
      DecodeMore(s, init, c);
      EncodeMore(Decode(init), Digit(c), |init|);
    }
    hide Decode, Digit, DigitChar, IsDigit, Encode, Power32;
  }

  lemma DecodeMore(s: string, init: string, c: char)
    requires s == init + [c] && AllDigits(s)
    ensures AllDigits(init) && IsDigit(c) && Decode(s) == Decode(init) * 32 + Digit(c)
    ensures Digit(c) < 32 && DigitChar(Digit(c)) == c
  {
    hide Alphabet, DigitChar, Digit;
    assert s[|s| - 1] == c && s[..|s| - 1] == init;
    CharOfDigit(c);
  }

  lemma EncodeMore(q: nat, d: nat, n: nat)
    requires d < 32 && q < Power32(n)
    ensures Encode(q * 32 + d, n + 1) == Encode(q, n) + [DigitChar(d)]
    ensures q * 32 + d < Power32(n + 1)
  {
    hide DigitChar;
    QuotientAndRest(q, d);
  }

  lemma QuotientAndRest(q: nat, d: nat)
    requires d < 32
    ensures (q * 32 + d) / 32 == q && (q * 32 + d) % 32 == d
  {
  }

  lemma QuotientsInOrder(v: nat, w: nat)
    ensures v < w <==> v / 32 < w / 32 || (v / 32 == w / 32 && v % 32 < w % 32)
  {
  }

  lemma QuotientInRange(v: nat, n: nat)
    requires n > 0 && v < Power32(n)
    ensures v / 32 < Power32(n - 1)
  {
  }

  /** Strings of one length compared character by character. */
  ghost predicate Before(a: string, b: string) {
    exists k :: 0 <= k < |a| && k < |b| && a[..k] == b[..k] && a[k] < b[k]
  }

  lemma BeforeOneMore(a: string, b: string, x: char, y: char)
    requires |a| == |b|
    ensures Before(a + [x], b + [y]) <==> Before(a, b) || (a == b && x < y)
  {
    var s, t := a + [x], b + [y];
    if Before(a, b) {
      var k :| 0 <= k < |a| && k < |b| && a[..k] == b[..k] && a[k] < b[k];
      assert s[..k] == a[..k] && t[..k] == b[..k] && s[k] < t[k];
    }
    if a == b && x < y {
      assert s[..|a|] == a && t[..|a|] == b && s[|a|] < t[|a|];
    }
    if Before(s, t) {
      var k :| 0 <= k < |s| && k < |t| && s[..k] == t[..k] && s[k] < t[k];
      if k < |a| {
        assert s[..k] == a[..k] && t[..k] == b[..k];
      } else {
        assert s[..k] == a && t[..k] == b;
      }
    }
  }

  /** Character order is numeric order. */
  lemma {:induction false} EncodeInOrder(v: nat, w: nat, n: nat)
    requires v < Power32(n) && w < Power32(n)
    ensures Before(Encode(v, n), Encode(w, n)) <==> v < w
    ensures Encode(v, n) == Encode(w, n) <==> v == w
  {
    if n > 0 {
      QuotientInRange(v, n);
      QuotientInRange(w, n);
      hide DigitChar, Digit, IsDigit, Before, Power32;
      var q, r, d, e := v / 32, w / 32, v % 32, w % 32;
      EncodeInOrder(q, r, n - 1);
      BeforeOneMore(Encode(q, n - 1), Encode(r, n - 1), DigitChar(d), DigitChar(e));
      DigitCharsInOrder(d, e);
      QuotientsInOrder(v, w);
      QuotientsInOrder(w, v);
      LastCharacters(Encode(q, n - 1), Encode(r, n - 1), DigitChar(d), DigitChar(e));
    }
  }

  lemma LastCharacters(a: string, b: string, x: char, y: char)
    ensures a + [x] == b + [y] <==> a == b && x == y
  {
    if a + [x] == b + [y] {
      assert (a + [x])[..|a|] == a && (b + [y])[..|b|] == b;
      assert (a + [x])[|a|] == x && (b + [y])[|b|] == y;
    }
  }

  // ---- generate_ulid -----------------------------------------------------

  const RANDOM_VALUES: nat := 0x1_0000_0000_0000_0000_0000  // 2^80

  const TIMESTAMPS: nat := 0x1_0000_0000_0000  // 2^48

  lemma PowerValues()
    ensures Power32(16) == RANDOM_VALUES
    ensures Power32(26) == 4 * TIMESTAMPS * RANDOM_VALUES
  {
    assert Power32(4) == 0x10_0000;
    assert Power32(8) == 0x100_0000_0000 by { assert Power32(6) == 0x4000_0000; }
    assert Power32(12) == 0x1000_0000_0000_0000 by { assert Power32(10) == 0x4_0000_0000_0000; }
    assert Power32(16) == RANDOM_VALUES by { assert Power32(14) == 0x40_0000_0000_0000_0000; }
    assert Power32(20) == 0x10_0000_0000_0000_0000_0000_0000 by {
      assert Power32(18) == 0x400_0000_0000_0000_0000_0000;
    }
    assert Power32(24) == 0x100_0000_0000_0000_0000_0000_0000_0000 by {
      assert Power32(22) == 0x4000_0000_0000_0000_0000_0000_0000;
    }
  }

  /** The value that is written: the milliseconds above the random bits. */
  function ValueOf(timestamp: nat, random: nat): nat {
    timestamp * RANDOM_VALUES + random
  }

  method GenerateUlid(timestamp: int, random: nat) returns (r: Result<string, UlidError>)
    requires random < RANDOM_VALUES
    ensures r.Success? <==> 0 <= timestamp < TIMESTAMPS
    ensures r.Success? ==> r.value == Encode(ValueOf(timestamp, random), LENGTH)
  {
    if !(0 <= timestamp < TIMESTAMPS) { return Failure(TimestampOutOfRange); }
    var chars := new char[LENGTH](_ => '0');
    EncodeInPlace(ValueOf(timestamp, random), chars);
    r := Success(chars[..]);
  }

  /** The loop: from the last character backwards, the low five bits, then shift. */
  method EncodeInPlace(v: nat, chars: array<char>)
    modifies chars
    ensures chars[..] == Encode(v, chars.Length)
  {
    var value := v;
    var index := chars.Length;
    while index > 0
      invariant 0 <= index <= chars.Length
      invariant Encode(v, chars.Length) == Encode(value, index) + chars[index..]
    {
      index := index - 1;
      ghost var after := chars[index + 1..];
      chars[index] := DigitChar(value % 32);
      assert chars[index..] == [DigitChar(value % 32)] + after;
      assert Encode(value, index + 1) + after == Encode(value / 32, index) + ([DigitChar(value % 32)] + after);
      value := value / 32;
    }
    assert chars[0..] == chars[..];
  }

  lemma ThirtyTwoTimes(high: nat, p: nat)
    ensures high * (32 * p) == 32 * (high * p)
  {
  }

  /** The first ten characters are the milliseconds, the last sixteen the random bits. */
  lemma {:induction false} EncodeSplits(high: nat, low: nat, m: nat, n: nat)
    requires low < Power32(n)
    ensures Encode(high * Power32(n) + low, m + n) == Encode(high, m) + Encode(low, n)
    decreases n
  {
    hide DigitChar;
    if n > 0 {
      var v := high * Power32(n) + low;
      var p := Power32(n - 1);
      ThirtyTwoTimes(high, p);
      assert v == 32 * (high * p) + low;
      assert v / 32 == high * p + low / 32 && v % 32 == low % 32;
      EncodeSplits(high, low / 32, m, n - 1);
      assert Encode(v, m + n) == (Encode(high, m) + Encode(low / 32, n - 1)) + [DigitChar(low % 32)];
    } else {
      assert Encode(high, m) + "" == Encode(high, m);
    }
  }

  lemma ValueInRange(timestamp: nat, random: nat)
    requires timestamp < TIMESTAMPS && random < RANDOM_VALUES
    ensures 4 * ValueOf(timestamp, random) < Power32(LENGTH)
  {
    PowerValues();
  }

  /** A ULID says when it was made and with which random bits, and its first character is at most 7. */
  lemma UlidIsLossless(timestamp: nat, random: nat)
    requires timestamp < TIMESTAMPS && random < RANDOM_VALUES
    ensures var s := Encode(ValueOf(timestamp, random), LENGTH);
            && AllDigits(s) && Decode(s) == ValueOf(timestamp, random)
            && s == Encode(timestamp, 10) + Encode(random, 16)
            && AllDigits(s[..10]) && Decode(s[..10]) == timestamp && AllDigits(s[10..]) && Decode(s[10..]) == random
            && Digit(s[0]) < 8
  {
    hide Encode, Decode, AllDigits, IsDigit, Digit, Power32;
    ValueInRange(timestamp, random);
    DecodeOfEncode(ValueOf(timestamp, random), LENGTH);
    UlidParts(timestamp, random);
    TenDigits();
    FirstDigit(timestamp, 9);
  }

  lemma UlidParts(timestamp: nat, random: nat)
    requires timestamp < TIMESTAMPS && random < RANDOM_VALUES
    ensures var s := Encode(ValueOf(timestamp, random), LENGTH);
            && s == Encode(timestamp, 10) + Encode(random, 16)
            && s[..10] == Encode(timestamp, 10) && s[10..] == Encode(random, 16)
            && AllDigits(s[..10]) && Decode(s[..10]) == timestamp && AllDigits(s[10..]) && Decode(s[10..]) == random
  {
    PowerValues();
    TenDigits();
    hide Power32, Encode, Decode, AllDigits;
    EncodeSplits(timestamp, random, 10, 16);
    DecodeOfEncode(timestamp, 10);
    DecodeOfEncode(random, 16);
    var a, b := Encode(timestamp, 10), Encode(random, 16);
    assert (a + b)[..10] == a && (a + b)[10..] == b;
  }

  lemma TenDigits()
    ensures Power32(10) == 4 * TIMESTAMPS && Power32(9) * 8 == TIMESTAMPS
  {
    assert Power32(4) == 0x10_0000;
    assert Power32(7) == 0x8_0000_0000;
    assert Power32(9) == 0x2000_0000_0000;
  }

  lemma FirstDigit(v: nat, n: nat)
    requires v < 8 * Power32(n)
    ensures var s := Encode(v, 1 + n); IsDigit(s[0]) && Digit(s[0]) < 8
  {
    var p := Power32(n);
    PowerPositive(n);
    hide Power32, DigitChar, Digit, IsDigit, Encode;
    var high, low := v / p, v % p;
    SmallQuotient(v, p);
    EncodeSplits(high, low, 1, n);
    OneDigit(high);
    assert (Encode(high, 1) + Encode(low, n))[0] == Encode(high, 1)[0];
  }

  lemma {:induction false} PowerPositive(n: nat)
    ensures Power32(n) > 0
  {
    if n > 0 { PowerPositive(n - 1); }
  }

  lemma SmallQuotient(v: nat, p: nat)
    requires v < 8 * p && p > 0
    ensures v == v / p * p + v % p && v / p < 8
  {
    ProductInOrder(v / p, 8, p);
  }

  lemma ProductInOrder(x: nat, y: nat, p: nat)
    requires p > 0
    ensures x * p < y * p ==> x < y
  {
    if y <= x { assert (x - y) * p >= 0; }
  }

  lemma OneDigit(d: nat)
    requires d < 8
    ensures IsDigit(Encode(d, 1)[0]) && Digit(Encode(d, 1)[0]) == d
  {
    DigitOfChar(d);
    hide DigitChar, Digit, IsDigit;
    QuotientAndRest(0, d);
    OneDigitEncoded(d, 1);
  }

  lemma OneDigitEncoded(d: nat, n: nat)
    requires d < 32 && n == 1
    ensures Encode(d, n) == [DigitChar(d)]
  {
    hide DigitChar;
    assert Encode(d / 32, n - 1) == "";
  }

  /** An identifier of a later millisecond sorts later, whatever the random bits. */
  lemma LaterSortsLater(t: nat, random: nat, later: nat, random': nat)
    requires t < later < TIMESTAMPS && random < RANDOM_VALUES && random' < RANDOM_VALUES
    ensures Before(Encode(ValueOf(t, random), LENGTH), Encode(ValueOf(later, random'), LENGTH))
  {
    ValueInRange(t, random);
    ValueInRange(later, random');
    hide Power32, Encode, Before;
    EncodeInOrder(ValueOf(t, random), ValueOf(later, random'), LENGTH);
  }

  /** Two identifiers are equal only where both parts are. */
  lemma UlidIsInjective(t: nat, random: nat, t': nat, random': nat)
    requires t < TIMESTAMPS && t' < TIMESTAMPS && random < RANDOM_VALUES && random' < RANDOM_VALUES
    ensures Encode(ValueOf(t, random), LENGTH) == Encode(ValueOf(t', random'), LENGTH) <==> t == t' && random == random'
  {
    UlidIsLossless(t, random);
    UlidIsLossless(t', random');
    hide Encode, Decode, Power32;
  }
}
