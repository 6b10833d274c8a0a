/** `toHex` (src/stms/util/util.cpp:28-44): hexadecimal digits up to the first zero digit at or
    after the requested number of places. */
module Hex {
  import opened Basics

  const HEX_CHARS := "0123456789abcdef"

  function Pow16(k: nat): (p: nat)
    ensures p > 0
  {
    if k == 0 then 1 else 16 * Pow16(k - 1)
  }

  /** The digit at position `i`, counted from the lowest. */
  function Digit(n: nat, i: nat): (d: nat)
    ensures d < 16
  {
    if i == 0 then n % 16 else Digit(n / 16, i - 1)
  }

  /** The lowest `k` digits, the most significant of them first. */
  function LowDigits(n: nat, k: nat): (s: string)
    ensures |s| == k
  {
    if k == 0 then "" else LowDigits(n / 16, k - 1) + [HEX_CHARS[n % 16]]
  }

  /** The loop finds a zero digit to stop at before `std::pow` leaves 64 bits. */
  predicate Stops(n: uint64, places: nat) {
    exists k :: places <= k <= 15 && Digit(n, k) == 0
  }

  predicate StopsAt(n: uint64, places: nat, k: nat) {
    places <= k <= 15 && Digit(n, k) == 0 && forall j :: places <= j < k ==> Digit(n, j) != 0
  }

  // ----- reading digits back -----

  predicate IsHex(s: string) {
    forall c | c in s :: c in HEX_CHARS
  }

  function DigitValue(c: char): (d: nat)
    ensures d < 16
  {
    if '0' <= c <= '9' then c as nat - '0' as nat
    else if 'a' <= c <= 'f' then c as nat - 'a' as nat + 10
    else 0
  }

  function Value(s: string): (v: nat)
    ensures v < Pow16(|s|)
  {
    if s == "" then 0 else 16 * Value(s[..|s| - 1]) + DigitValue(s[|s| - 1])
  }

  lemma CharOfDigit(d: nat)
    requires d < 16
    ensures HEX_CHARS[d] in HEX_CHARS && DigitValue(HEX_CHARS[d]) == d
  {
  }

  lemma DigitOfChar(c: char)
    requires c in HEX_CHARS
    ensures HEX_CHARS[DigitValue(c)] == c
  {
  }

  /** Exactly the numbers below 16^k can be read back from their lowest `k` digits. */
  lemma {:induction false} ValueOfLowDigits(n: nat, k: nat)
    ensures IsHex(LowDigits(n, k))
    ensures Value(LowDigits(n, k)) == n <==> n < Pow16(k)
  {
    if k > 0 {
      ValueOfLowDigits(n / 16, k - 1);
      CharOfDigit(n % 16);
      var s := LowDigits(n, k);
      assert s[..k - 1] == LowDigits(n / 16, k - 1) && s[k - 1] == HEX_CHARS[n % 16];
    }
  }

  /** Reading hexadecimal text and writing it again gives the text. */
  lemma {:induction false} LowDigitsOfValue(s: string)
    requires IsHex(s)
    ensures LowDigits(Value(s), |s|) == s
  {
    if s != "" {
      hide Value, IsHex, DigitValue, LowDigits;
      var k := |s| - 1;
      LastDigit(s);
      LowDigitsOfValue(s[..k]);
      DigitOfChar(s[k]);
      LowDigitsLast(Value(s), k);
      assert s == s[..k] + [s[k]];
    }
  }

  lemma LowDigitsLast(n: nat, k: nat)
    ensures LowDigits(n, k + 1) == LowDigits(n / 16, k) + [HEX_CHARS[n % 16]]
  {
  }

  lemma LastDigit(s: string)
    requires s != "" && IsHex(s)
    ensures var k := |s| - 1;
            IsHex(s[..k]) && s[k] in HEX_CHARS && Value(s) / 16 == Value(s[..k]) && Value(s) % 16 == DigitValue(s[k])
  {
    hide IsHex, DigitValue;
    var k := |s| - 1;
    assert s == s[..k] + [s[k]];
    HexConcat(s[..k], [s[k]]);
    HexChar(s[k]);
  }

  lemma HexChar(c: char)
    ensures IsHex([c]) <==> c in HEX_CHARS
  {
    assert c in [c];
  }

  lemma HexConcat(s: string, t: string)
    ensures IsHex(s + t) <==> IsHex(s) && IsHex(t)
  {
    assert forall c :: c in s + t <==> c in s || c in t;
  }

  // ----- digits as quotients and remainders -----

  lemma TimesMonotone(a: nat, b: nat, d: nat)
    requires a <= b
    ensures a * d <= b * d
  {
    assert (b - a) * d >= 0;
  }

  lemma DivModUnique(n: nat, d: nat, q: nat, r: nat)
    requires d > 0 && n == q * d + r && r < d
    ensures n / d == q && n % d == r
  {
    var q' := n / d;
    assert n == q' * d + n % d;
    if q' < q {
      TimesMonotone(q' + 1, q, d);
    } else if q < q' {
      TimesMonotone(q + 1, q', d);
    }
  }

  /** Dividing by 16 first and by `p` then. */
  lemma SplitDivision(n: nat, p: nat)
    requires p > 0
    ensures n / (16 * p) == n / 16 / p
    ensures n % (16 * p) == 16 * (n / 16 % p) + n % 16
  {
    var m := n / 16;
    var q, r := m / p, m % p;
    assert m == q * p + r;
    assert n == q * (16 * p) + (16 * r + n % 16);
    DivModUnique(n, 16 * p, q, 16 * r + n % 16);
  }

  /** The loop's way to a digit. */
  lemma {:induction false} DigitIsQuotient(n: nat, i: nat)
    ensures Digit(n, i) == n / Pow16(i) % 16
  {
    if i > 0 {
      DigitIsQuotient(n / 16, i - 1);
      SplitDivision(n, Pow16(i - 1));
    }
  }

  /** The lowest digits stand for the number modulo 16^k. */
  lemma {:induction false} ValueShown(n: nat, k: nat)
    ensures Value(LowDigits(n, k)) == n % Pow16(k)
  {
    if k > 0 {
      ValueShown(n / 16, k - 1);
      CharOfDigit(n % 16);
      var s := LowDigits(n, k);
      assert s[..k - 1] == LowDigits(n / 16, k - 1) && s[k - 1] == HEX_CHARS[n % 16];
      SplitDivision(n, Pow16(k - 1));
    }
  }

  // ----- what `toHex` returns -----

  lemma {:induction false} PowersGrow(j: nat, k: nat)
    requires j <= k
    ensures Pow16(j) <= Pow16(k)
    decreases k - j
  {
    if j < k {
      PowersGrow(j + 1, k);
    }
  }

  lemma {:induction false} SmallDigit(n: nat, k: nat)
    requires n < Pow16(k)
    ensures Digit(n, k) == 0
  {
    if k > 0 {
      SmallDigit(n / 16, k - 1);
    }
  }

  /** Digits are truncated exactly if a zero stands at or after position `places` inside the number. */
  lemma {:induction false} LosslessWhenNoZeroInside(n: uint64, places: nat, k: nat)
    requires StopsAt(n, places, k)
    ensures Value(LowDigits(n, k)) == n <==>
            forall j: nat :: places <= j && Pow16(j) <= n ==> Digit(n, j) != 0
  {
    ValueOfLowDigits(n, k);
    if n < Pow16(k) {
      forall j: nat | places <= j && Pow16(j) <= n ensures Digit(n, j) != 0 {
        if j >= k {
          PowersGrow(k, j);
        }
      }
    }
  }

  /** A number that fits in the places is padded to exactly that many. */
  lemma {:induction false} FitsPlaces(n: uint64, places: nat)
    requires places <= 15 && n < Pow16(places)
    ensures StopsAt(n, places, places) && Value(LowDigits(n, places)) == n
  {
    SmallDigit(n, places);
    ValueOfLowDigits(n, places);
  }

  /** Numbers below 16^15 always find a digit to stop at. */
  lemma {:induction false} StopsBelow60Bits(n: uint64, places: nat)
    requires n < Pow16(15) && places <= 15
    ensures Stops(n, places)
  {
    SmallDigit(n, 15);
  }

  /** "Digits will never be truncated" is not so: of 0x101 only the last digit is kept. */
  lemma {:induction false} TruncatesInteriorZero()
    ensures StopsAt(0x101, 0, 1) && LowDigits(0x101, 1) == "1"
  {
    assert Digit(0x101, 0) == 1 && Digit(0x101, 1) == 0;
    assert LowDigits(0x10, 0) == "";
  }

  function Reversed(s: string): (r: string)
    ensures |r| == |s|
  {
    if s == "" then "" else Reversed(s[1..]) + [s[0]]
  }

  lemma {:induction false} ReversedAppend(s: string, c: char)
    ensures Reversed(s + [c]) == [c] + Reversed(s)
  {
    if s == "" {
      assert s + [c] == [c] && [c][1..] == "";
    } else {
      assert (s + [c])[1..] == s[1..] + [c];
      ReversedAppend(s[1..], c);
    }
  }

  lemma {:induction false} OneMoreDigit(n: nat, i: nat)
    ensures LowDigits(n, i + 1) == [HEX_CHARS[Digit(n, i)]] + LowDigits(n, i)
  {
    if i == 0 {
      assert LowDigits(n / 16, 0) == "";
    } else {
      OneMoreDigit(n / 16, i - 1);
    }
  }

  method ToHex(n: uint64, places: nat) returns (ret: string)
    requires Stops(n, places)
    ensures places <= |ret| <= 15 && Digit(n, |ret|) == 0 && forall j :: places <= j < |ret| ==> Digit(n, j) != 0
    ensures StopsAt(n, places, |ret|)
    ensures ret == LowDigits(n, |ret|)
  {
    hide LowDigits, Reversed, Pow16;
    ret := "";
    var i := 0;
    var lastAdded := n % 16;
    Empty(n);
    while lastAdded != 0 || i < places
      invariant lastAdded == Digit(n, i) && |ret| == i <= 15
      invariant forall j :: places <= j < i ==> Digit(n, j) != 0
      invariant Reversed(ret) == LowDigits(n, i)
      decreases 15 - i
    {
      OneMoreDigit(n, i);
      DigitIsQuotient(n, i + 1);
      ReversedAppend(ret, HEX_CHARS[lastAdded]);
      ret := ret + [HEX_CHARS[lastAdded]];
      i := i + 1;
      lastAdded := n / Pow16(i) % 16;
    }
    ret := Reversed(ret);
  }

  lemma Empty(n: nat)
    ensures LowDigits(n, 0) == Reversed("")
  {
  }
}
