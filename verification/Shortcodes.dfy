/** Shortcodes and primary keys, server/helpers.go. A shortcode is a sequence of bytes, written as
    characters; a primary key is an unsigned 64-bit number. */
module Shortcodes {
  import opened Prelude

  const FIRST := "ABCDEFGHIJKLMNOP"
  const SECOND := "QRSTUVWXYZabcdef"
  const THIRD := "ghijklmnopqrstuv"
  const FOURTH := "wxyz0123456789-_"

  /** The URL-safe alphabet, section 5 of RFC 4648, by quarters. */
  const DIGITS := FIRST + SECOND + THIRD + FOURTH

  /** The value of a character in the alphabet. */
  function Digit(c: char): (d: Option<nat>)
    ensures d.Some? ==> d.value < 64
  {
    if 'A' <= c <= 'Z' then Some(c as int - 'A' as int)
    else if 'a' <= c <= 'z' then Some(26 + c as int - 'a' as int)
    else if '0' <= c <= '9' then Some(52 + c as int - '0' as int)
    else if c == '-' then Some(62)
    else if c == '_' then Some(63)
    else None
  }

  lemma FirstReads(m: nat)
    requires m < 16
    ensures |FIRST| == 16 && Digit(FIRST[m]) == Some(m)
  {}

  lemma SecondReads(m: nat)
    requires m < 16
    ensures |SECOND| == 16 && Digit(SECOND[m]) == Some(16 + m)
  {}

  lemma ThirdReads(m: nat)
    requires m < 16
    ensures |THIRD| == 16 && Digit(THIRD[m]) == Some(32 + m)
  {}

  lemma FourthReads(m: nat)
    requires m < 16
    ensures |FOURTH| == 16 && Digit(FOURTH[m]) == Some(48 + m)
  {}

  /** The alphabet writes each digit as the character that reads as it. */
  lemma Alphabet(n: nat)
    requires n < 64
    ensures |DIGITS| == 64 && Digit(DIGITS[n]) == Some(n)
  {
    hide FIRST, SECOND, THIRD, FOURTH, Digit;
    var m := n % 16;
    FirstReads(m);
    SecondReads(m);
    ThirdReads(m);
    FourthReads(m);
  }

  lemma OneCharacter(c: char, d: char)
    requires Digit(c) == Digit(d) && Digit(c).Some?
    ensures c == d
  {}

  predicate Valid(s: string) { forall c :: c in s ==> Digit(c).Some? }

  function Values(s: string): (d: seq<nat>)
    requires Valid(s)
    ensures |d| == |s| && forall i :: 0 <= i < |d| ==> d[i] < 64 && Digit(s[i]) == Some(d[i])
  {
    if s == "" then []
    else
      assert s[|s| - 1] in s;
      Values(s[..|s| - 1]) + [Digit(s[|s| - 1]).value]
  }

  /** The number written as `d` in base `base`. */
  function Numeral(base: nat, d: seq<nat>): nat {
    if d == [] then 0 else Numeral(base, d[..|d| - 1]) * base + d[|d| - 1]
  }

  // ---------- Decoding ----------

  /** The decoder skips line breaks. */
  function Strip(s: string): (r: string)
    ensures (forall c :: c in s ==> c != '\r' && c != '\n') ==> r == s
  {
    if s == "" then ""
    else
      assert s[0] in s && forall c :: c in s[1..] ==> c in s;
      if s[0] == '\r' || s[0] == '\n' then Strip(s[1..]) else [s[0]] + Strip(s[1..])
  }

  function At(d: seq<nat>, i: nat): nat { if i < |d| then d[i] else 0 }

  function Bits(d: seq<nat>): nat { At(d, 0) * 0x40000 + At(d, 1) * 0x1000 + At(d, 2) * 0x40 + At(d, 3) }

  /** The bytes of up to four digits: 24 bits, of which those of absent digits are dropped. */
  function Quantum(d: seq<nat>): (bytes: seq<nat>)
    requires 2 <= |d| <= 4
    ensures |bytes| == |d| - 1
  {
    [Bits(d) / 0x10000 % 0x100, Bits(d) / 0x100 % 0x100, Bits(d) % 0x100][..|d| - 1]
  }

  /** Four digits at a time; one digit left over is an error. */
  function Bytes(d: seq<nat>): Option<seq<nat>> {
    if d == [] then Some([])
    else if |d| == 1 then None
    else if |d| <= 4 then Some(Quantum(d))
    else match Bytes(d[4..]) case None => None case Some(rest) => Some(Quantum(d[..4]) + rest)
  }

  /** `base64.RawURLEncoding.DecodeString`. */
  function Decode(s: string): Option<seq<nat>> {
    if Valid(Strip(s)) then Bytes(Values(Strip(s))) else None
  }

  function Pad(s: string): nat { (4 - |s| % 4) % 4 }

  /** `strings.Repeat("A", n)`. */
  function Zeros(n: nat): string { if n == 0 then "" else "A" + Zeros(n - 1) }

  function Padded(s: string): string { Zeros(Pad(s)) + s }

  /** `shortcodePK`. */
  function ShortcodePK(s: string): Option<nat> {
    match Decode(Padded(s)) case None => None case Some(bytes) => Some(Numeral(0x100, bytes))
  }

  // ---------- What decoding computes ----------

  function Power(base: nat, n: nat): nat { if n == 0 then 1 else Power(base, n - 1) * base }

  lemma {:induction false} NumeralConcat(base: nat, a: seq<nat>, b: seq<nat>)
    ensures Numeral(base, a + b) == Numeral(base, a) * Power(base, |b|) + Numeral(base, b)
    decreases |b|
  {
    if b == [] {
      assert a + b == a;
    } else {
      var front, last := b[..|b| - 1], b[|b| - 1];
      assert (a + b)[..|a + b| - 1] == a + front;
      NumeralConcat(base, a, front);
      Distribute(Numeral(base, a), Power(base, |front|), Numeral(base, front), base);
    }
  }

  lemma Distribute(a: nat, p: nat, b: nat, base: nat)
    ensures (a * p + b) * base == a * (p * base) + b * base
  {}

  lemma SamePower(k: nat)
    ensures Power(0x100, 3 * k) == Power(0x40, 4 * k)
  {
    if k > 0 {
      SamePower(k - 1);
      var p := Power(0x100, 3 * k - 3);
      assert Power(0x100, 3 * k - 1) == p * 0x100 * 0x100;
      assert Power(0x40, 4 * k - 2) == p * 0x40 * 0x40;
      assert Power(0x40, 4 * k - 1) == p * 0x40 * 0x40 * 0x40;
    }
  }

  predicate Small(d: seq<nat>) { forall i :: 0 <= i < |d| ==> d[i] < 64 }

  /** How many bits a last group of `n` digits loses, as a factor. */
  function Dropped(n: nat): nat { if n % 4 == 2 then 16 else if n % 4 == 3 then 4 else 1 }

  lemma Horner4(base: nat, d: seq<nat>)
    requires |d| == 4
    ensures Numeral(base, d) == ((d[0] * base + d[1]) * base + d[2]) * base + d[3]
  {
    assert d[..3][..2] == d[..2] && d[..2][..1] == d[..1] && d[..1][..0] == [];
    assert Numeral(base, d[..1]) == d[0];
    assert Numeral(base, d[..2]) == d[0] * base + d[1];
    assert Numeral(base, d[..3]) == (d[0] * base + d[1]) * base + d[2];
  }

  lemma Horner(base: nat, d: seq<nat>)
    requires 1 <= |d| <= 3
    ensures |d| == 1 ==> Numeral(base, d) == d[0]
    ensures |d| == 2 ==> Numeral(base, d) == d[0] * base + d[1]
    ensures |d| == 3 ==> Numeral(base, d) == (d[0] * base + d[1]) * base + d[2]
  {
    assert d[..1][..0] == [];
    assert Numeral(base, d[..1]) == d[0];
    if |d| > 1 {
      assert d[..2][..1] == d[..1];
      assert Numeral(base, d[..2]) == d[0] * base + d[1];
    }
    assert d[..|d|] == d;
  }

  lemma QuantumValue(d: seq<nat>)
    requires 2 <= |d| <= 4 && Small(d)
    ensures Numeral(0x100, Quantum(d)) == Numeral(0x40, d) / Dropped(|d|)
  {
    hide Numeral, Quantum;
    QuantumBytes(d);
    Horner(0x100, Quantum(d));
    ThreeBytes(d[0], d[1], At(d, 2), At(d, 3));
    if |d| == 4 {
      Horner4(0x40, d);
    } else {
      Horner(0x40, d);
    }
  }

  lemma QuantumBytes(d: seq<nat>)
    requires 2 <= |d| <= 4
    ensures Quantum(d)[0] == Bits(d) / 0x10000 % 0x100
    ensures |d| >= 3 ==> Quantum(d)[1] == Bits(d) / 0x100 % 0x100
    ensures |d| == 4 ==> Quantum(d)[2] == Bits(d) % 0x100
  {
    hide Bits;
  }

  lemma ThreeBytes(a: nat, b: nat, c: nat, d: nat)
    requires a < 64 && b < 64 && c < 64 && d < 64
    ensures var bits := a * 0x40000 + b * 0x1000 + c * 0x40 + d;
            && bits / 0x10000 % 0x100 == (a * 0x40 + b) / 16
            && (bits / 0x10000 % 0x100) * 0x100 + bits / 0x100 % 0x100 == ((a * 0x40 + b) * 0x40 + c) / 4
            && ((bits / 0x10000 % 0x100) * 0x100 + bits / 0x100 % 0x100) * 0x100 + bits % 0x100
               == ((a * 0x40 + b) * 0x40 + c) * 0x40 + d
  {
    var bits := a * 0x40000 + b * 0x1000 + c * 0x40 + d;
    var high, middle, low := a * 4 + b / 16, b % 16 * 16 + c / 4, c % 4 * 64 + d;
    Parts(bits, high, middle, low);
    assert (a * 0x40 + b) / 16 == high;
    assert ((a * 0x40 + b) * 0x40 + c) / 4 == high * 0x100 + middle;
  }

  lemma Parts(bits: nat, high: nat, middle: nat, low: nat)
    requires bits == (high * 0x100 + middle) * 0x100 + low && high < 0x100 && middle < 0x100 && low < 0x100
    ensures bits / 0x10000 % 0x100 == high && bits / 0x100 % 0x100 == middle && bits % 0x100 == low
  {
    assert bits / 0x100 == high * 0x100 + middle;
  }

  /** The bytes of a number of digits are that number, less the bits of an incomplete last group. */
  lemma {:induction false} BytesValue(d: seq<nat>)
    requires Small(d)
    ensures Bytes(d).None? <==> |d| % 4 == 1
    ensures Bytes(d).Some? ==> Numeral(0x100, Bytes(d).value) == Numeral(0x40, d) / Dropped(|d|)
    ensures Bytes(d).Some? ==> |Bytes(d).value| == |d| / 4 * 3 + (if |d| % 4 == 0 then 0 else |d| % 4 - 1)
    decreases |d|
  {
    hide Numeral, Power, Quantum, Dropped;
    Whole4();
    if |d| > 4 {
      var group, rest := d[..4], d[4..];
      BytesValue(rest);
      if Bytes(rest).Some? {
        QuantumValue(group);
        assert d == group + rest;
        NumeralConcat(0x40, group, rest);
        NumeralConcat(0x100, Quantum(group), Bytes(rest).value);
        Shift(|rest|, Numeral(0x40, group), Numeral(0x40, rest));
      }
    } else if |d| > 1 {
      QuantumValue(d);
    }
  }

  lemma Whole4()
    ensures Dropped(4) == 1 && Dropped(0) == 1
    ensures Numeral(0x100, []) == Numeral(0x40, []) == 0
    ensures forall n: nat :: Dropped(n + 4) == Dropped(n)
  {}

  lemma Shift(n: nat, group: nat, rest: nat)
    requires n % 4 != 1
    ensures (group * Power(0x40, n) + rest) / Dropped(n)
         == group * Power(0x100, n / 4 * 3 + (if n % 4 == 0 then 0 else n % 4 - 1)) + rest / Dropped(n)
  {
    hide Power;
    var k := n / 4;
    SamePower(k);
    Powers(k);
    var p := Power(0x40, 4 * k);
    if n % 4 == 2 {
      assert n == 4 * k + 2 && p * 0x1000 == p * 0x100 * 16;
      Whole(group, p * 0x100, rest, 16);
    } else if n % 4 == 3 {
      assert n == 4 * k + 3 && p * 0x40000 == p * 0x10000 * 4;
      Whole(group, p * 0x10000, rest, 4);
    } else {
      assert n == 4 * k;
    }
  }

  lemma Powers(k: nat)
    ensures Power(0x40, 4 * k + 2) == Power(0x40, 4 * k) * 0x1000
    ensures Power(0x40, 4 * k + 3) == Power(0x40, 4 * k) * 0x40000
    ensures Power(0x100, 3 * k + 1) == Power(0x100, 3 * k) * 0x100
    ensures Power(0x100, 3 * k + 2) == Power(0x100, 3 * k) * 0x10000
  {
    assert Power(0x40, 4 * k + 1) == Power(0x40, 4 * k) * 0x40;
    assert Power(0x40, 4 * k + 2) == Power(0x40, 4 * k + 1) * 0x40;
    assert Power(0x40, 4 * k + 3) == Power(0x40, 4 * k + 2) * 0x40;
    assert Power(0x100, 3 * k + 2) == Power(0x100, 3 * k + 1) * 0x100;
  }

  lemma Whole(a: nat, p: nat, b: nat, d: nat)
    requires d > 0
    ensures (a * (p * d) + b) / d == a * p + b / d
  {
    Multiple(a * p, b, d);
    assert a * (p * d) == (a * p) * d;
  }

  lemma Multiple(q: nat, b: nat, d: nat)
    requires d > 0
    ensures (q * d + b) / d == q + b / d
  {
    var x, m := q * d + b, b / d;
    assert x == (q + m) * d + b % d;
    Quotient(x / d, q + m, x % d, b % d, d);
  }

  lemma Quotient(q: nat, m: nat, r: nat, t: nat, d: nat)
    requires q * d + r == m * d + t && r < d && t < d
    ensures q == m
  {
    var k := q - m;
    assert k * d == t - r;
    if k > 0 {
      AtLeast(k, d);
    } else if k < 0 {
      AtLeast(-k, d);
    }
  }

  lemma AtLeast(k: int, d: int)
    requires k > 0 && d >= 0
    ensures k * d >= d
  {}

  // ---------- Shortcode to key ----------

  lemma ZeroFirst(n: nat, s: string)
    ensures Zeros(n) + s == if n == 0 then s else "A" + (Zeros(n - 1) + s)
  {
    if n == 0 {
      assert "" + s == s;
    } else {
      assert ("A" + Zeros(n - 1)) + s == "A" + (Zeros(n - 1) + s);
    }
  }

  lemma StripPad(n: nat, s: string)
    ensures Strip(Zeros(n) + s) == Zeros(n) + Strip(s)
  {
    hide Strip, Zeros;
    ZeroFirst(n, s);
    ZeroFirst(n, Strip(s));
    if n > 0 {
      StripPad(n - 1, s);
      StripZero(Zeros(n - 1) + s);
    }
  }

  lemma StripZero(t: string)
    ensures Strip("A" + t) == "A" + Strip(t)
  {
    assert ("A" + t)[1..] == t;
  }

  lemma ValuesConcat(a: string, b: string)
    requires Valid(a) && Valid(b)
    ensures Valid(a + b) && Values(a + b) == Values(a) + Values(b)
  {
    assert Valid(a + b);
    var d, e := Values(a + b), Values(a) + Values(b);
    assert forall i :: 0 <= i < |d| ==> Digit((a + b)[i]) == Some(d[i]) == Some(e[i]);
  }

  lemma PaddedValue(n: nat, s: string)
    requires Valid(s)
    ensures Valid(Zeros(n) + s) && Numeral(0x40, Values(Zeros(n) + s)) == Numeral(0x40, Values(s))
  {
    hide Zeros, Valid, Values, Numeral;
    ZeroFirst(n, s);
    if n > 0 {
      PaddedValue(n - 1, s);
      LeadingZero(Zeros(n - 1) + s);
    }
  }

  lemma ValueOfA()
    ensures Valid("A") && Values("A") == [0] && Numeral(0x40, [0]) == 0
  {
    assert Values("A")[0] == 0;
    Horner(0x40, [0]);
  }

  lemma LeadingZero(t: string)
    requires Valid(t)
    ensures Valid("A" + t) && Numeral(0x40, Values("A" + t)) == Numeral(0x40, Values(t))
  {
    hide Valid, Values, Numeral, Power;
    ValueOfA();
    ValuesConcat("A", t);
    NumeralConcat(0x40, [0], Values(t));
  }

  lemma PadLength(n: nat)
    ensures |Zeros(n)| == n && Valid(Zeros(n))
  {}

  lemma ValidPad(n: nat, d: string)
    ensures Valid(Zeros(n) + d) <==> Valid(d)
  {
    PadLength(n);
    var t := Zeros(n) + d;
    if Valid(t) {
      forall c | c in d ensures Digit(c).Some? {
        assert c in t;
      }
    }
  }

  /** What `shortcodePK` reads: the base-64 numeral of the characters other than line breaks. The
      padding counts those too, so a line break can leave an incomplete last group, which loses
      bits or is an error. */
  lemma ReadsNumeral(s: string)
    ensures ShortcodePK(s).Some? <==> Valid(Strip(s)) && (Pad(s) + |Strip(s)|) % 4 != 1
    ensures ShortcodePK(s).Some? ==>
      ShortcodePK(s).value == Numeral(0x40, Values(Strip(s))) / Dropped(Pad(s) + |Strip(s)|)
  {
    hide Bytes, Numeral, Values, Dropped, Valid, Strip, Zeros, Pad;
    var padding, d := Zeros(Pad(s)), Strip(s);
    PadLength(Pad(s));
    StripPad(Pad(s), s);
    ValidPad(Pad(s), d);
    if Valid(d) {
      PaddedValue(Pad(s), d);
      BytesValue(Values(padding + d));
    }
  }

  lemma NoBreaks(s: string)
    requires Valid(s)
    ensures Strip(s) == s && (Pad(s) + |s|) % 4 == 0
  {
    hide Strip;
    assert Digit('\r').None? && Digit('\n').None?;
    Aligned(|s|);
  }

  lemma Aligned(n: nat)
    ensures ((4 - n % 4) % 4 + n) % 4 == 0
  {
    var q, r := n / 4, n % 4;
    assert n == 4 * q + r;
    if r > 0 {
      assert (4 - r) % 4 + n == 4 * (q + 1);
    }
  }

  /** Of a shortcode, the base-64 numeral. */
  lemma ReadsShortcode(s: string)
    requires Valid(s)
    ensures ShortcodePK(s) == Some(Numeral(0x40, Values(s)))
  {
    hide Numeral, Values, Valid, Strip, Pad, ShortcodePK;
    ReadsNumeral(s);
    NoBreaks(s);
  }

  /** With a line break after it, the key of a shortcode is another. */
  lemma LineBreakLosesBits()
    ensures ShortcodePK("B") == Some(1) && ShortcodePK("B\n") == Some(0)
  {
    hide ShortcodePK, Numeral;
    ValueOfB();
    ReadsShortcode("B");
    StripB();
    ReadsNumeral("B\n");
    assert Pad("B\n") == 2 && Dropped(3) == 4;
  }

  lemma ValueOfB()
    ensures Valid("B") && Numeral(0x40, Values("B")) == 1
  {
    assert Valid("B") && Values("B")[0] == 1;
    Horner(0x40, Values("B"));
  }

  lemma StripB()
    ensures Strip("B\n") == "B"
  {
    assert "\n"[1..] == "" && Strip("\n") == Strip("");
    assert "B\n"[1..] == "\n";
    assert Strip("B\n") == ['B'] + Strip("\n");
  }

  // ---------- Key to shortcode ----------

  function Symbol(n: nat): (c: char)
    requires n < 64
    ensures Digit(c) == Some(n)
  {
    Alphabet(n);
    DIGITS[n]
  }

  function Shortcode(n: nat): (s: string)
    ensures s != "" && Valid(s)
  {
    if n < 64 then [Symbol(n)] else Shortcode(n / 64) + [Symbol(n % 64)]
  }

  /** `n` has at most `k` digits exactly when it is below the k-th power of 64. */
  lemma {:induction false} LengthBound(n: nat, k: nat)
    requires k > 0
    ensures |Shortcode(n)| <= k <==> n < Power(64, k)
    decreases k
  {
    if k == 1 {
      assert Power(64, 1) == 64 * Power(64, 0);
    } else if n >= 64 {
      LengthBound(n / 64, k - 1);
    } else {
      PowerGrows(k - 1);
    }
  }

  lemma PowerGrows(k: nat)
    ensures Power(64, k) >= 1
  {}

  lemma ElevenDigits(pk: nat)
    requires pk < 0x1_0000_0000_0000_0000
    ensures |Shortcode(pk)| <= 11
  {
    LengthBound(pk, 11);
    assert Power(64, 11) > pk;
  }

  /** The last digit of what is still to be written. */
  lemma LastSymbol(rest: nat, written: string)
    ensures Shortcode(rest) + written
         == (if rest / 64 == 0 then "" else Shortcode(rest / 64)) + ([Symbol(rest % 64)] + written)
  {
    hide Symbol;
    var last := [Symbol(rest % 64)];
    if rest >= 64 {
      assert (Shortcode(rest / 64) + last) + written == Shortcode(rest / 64) + (last + written);
    } else {
      assert "" + (last + written) == last + written;
    }
  }

  /** `pkShortcode`: fills an array from its end. */
  method PkShortcode(pk: nat) returns (s: string)
    requires pk < 0x1_0000_0000_0000_0000
    ensures s == Shortcode(pk) && |s| <= 11
  {
    hide Shortcode, DIGITS, Digit;
    var out := new char[11](_ => 'A');
    var rest, i := pk, out.Length;
    ghost var written := "";
    ElevenDigits(pk);
    assert Shortcode(rest) + written == Shortcode(pk);
    while true
      invariant 0 <= i <= 11 && out[i..] == written
      invariant Shortcode(rest) + written == Shortcode(pk)
      decreases rest
    {
      LastSymbol(rest, written);
      i := i - 1;
      Alphabet(rest % 64);
      out[i] := DIGITS[rest % 64];
      written := [Symbol(rest % 64)] + written;
      assert out[i..] == written;
      if rest / 64 == 0 {
        return out[i..];
      }
      rest := rest / 64;
    }
  }

  lemma {:induction false} Written(n: nat)
    ensures Numeral(0x40, Values(Shortcode(n))) == n
  {
    var s := Shortcode(n);
    if n < 64 {
      Horner(0x40, Values(s));
    } else {
      var front := Shortcode(n / 64);
      Written(n / 64);
      assert s[..|s| - 1] == front;
      assert Values(s)[..|s| - 1] == Values(front);
    }
  }

  /** The key of a key's shortcode is the key, whatever its size. */
  lemma KeyRoundTrip(n: nat)
    ensures ShortcodePK(Shortcode(n)) == Some(n)
  {
    Written(n);
    ReadsShortcode(Shortcode(n));
  }

  /** As `pkShortcode` writes: no leading zero digit. */
  predicate Canonical(s: string) { s != "" && Valid(s) && (|s| > 1 ==> s[0] != 'A') }

  lemma {:induction false} LeadingDigit(s: string)
    requires Canonical(s)
    ensures |s| > 1 ==> Numeral(0x40, Values(s)) >= 64
    decreases |s|
  {
    var v := Values(s);
    if |s| == 2 {
      Horner(0x40, v);
      assert v[0] != 0 by {
        assert Digit('A') == Some(0);
        if v[0] == 0 {
          OneCharacter(s[0], 'A');
        }
      }
    } else if |s| > 2 {
      var front := s[..|s| - 1];
      assert forall c :: c in front ==> c in s;
      LeadingDigit(front);
      assert v[..|s| - 1] == Values(front);
    }
  }

  lemma NumeralStep(s: string)
    requires s != "" && Valid(s)
    ensures var front := s[..|s| - 1];
            Valid(front) && Digit(s[|s| - 1]).Some?
            && Numeral(0x40, Values(s)) == Numeral(0x40, Values(front)) * 64 + Digit(s[|s| - 1]).value
  {
    assert forall c :: c in s[..|s| - 1] ==> c in s;
    assert s[|s| - 1] in s;
    assert Values(s)[..|s| - 1] == Values(s[..|s| - 1]);
  }

  lemma {:induction false} Rewritten(s: string)
    requires Canonical(s)
    ensures Shortcode(Numeral(0x40, Values(s))) == s
    decreases |s|
  {
    hide Digit, Numeral, Values, Valid;
    var front, last := s[..|s| - 1], s[|s| - 1];
    NumeralStep(s);
    LastDigit(Numeral(0x40, Values(front)), Digit(last).value);
    if |s| == 1 {
      NothingIsZero();
      assert front == "";
    } else {
      LeadingDigit(s);
      Rewritten(front);
    }
    OneCharacter(Symbol(Numeral(0x40, Values(s)) % 64), last);
  }

  lemma NothingIsZero()
    ensures Valid("") && Numeral(0x40, Values("")) == 0
  {}

  lemma LastDigit(n: nat, d: nat)
    requires d < 64
    ensures (n * 64 + d) / 64 == n && (n * 64 + d) % 64 == d
  {}

  /** The shortcode of a shortcode's key is that shortcode exactly when it has no leading "A". */
  lemma ShortcodeRoundTrip(s: string)
    requires Valid(s)
    ensures Shortcode(Numeral(0x40, Values(s))) == s <==> Canonical(s)
  {
    hide Numeral, Values, Shortcode;
    NoLeadingA(Numeral(0x40, Values(s)));
    if Canonical(s) {
      Rewritten(s);
    }
  }

  lemma {:induction false} NoLeadingA(n: nat)
    ensures Canonical(Shortcode(n))
  {
    if n >= 64 {
      NoLeadingA(n / 64);
      LeadingSymbol(n / 64);
    }
  }

  lemma {:induction false} LeadingSymbol(n: nat)
    requires n > 0
    ensures Shortcode(n)[0] != 'A'
  {
    assert Digit('A') == Some(0);
    if n >= 64 {
      LeadingSymbol(n / 64);
    }
  }

  // ---------- Known keys ----------

  lemma ElevenValues(d: seq<nat>, a: seq<nat>, b: seq<nat>, c: seq<nat>)
    requires |a| == |b| == 4 && |c| == 3 && d == a + b + c
    ensures Numeral(0x40, d) == (Numeral(0x40, a) * 0x1000000 + Numeral(0x40, b)) * 0x40000 + Numeral(0x40, c)
  {
    hide Numeral;
    FourPowers();
    NumeralConcat(0x40, a + b, c);
    NumeralConcat(0x40, a, b);
  }

  lemma FourPowers()
    ensures Power(0x40, 3) == 0x40000 && Power(0x40, 4) == 0x1000000
  {}

  /** Two keys known from Instagram, as the tests of the server have them: which character stands for
      which digit is Instagram's choice. */
  lemma KnownKeys()
    ensures ShortcodePK("DaEd82_pQ40") == Some(3928396500541181492)
    ensures Shortcode(4011387627600768522) == "DerT8tHim4K"
  {
    hide ShortcodePK, Shortcode, Numeral;
    FirstKnown();
    SecondKnown();
    ReadsShortcode("DaEd82_pQ40");
    ShortcodeRoundTrip("DerT8tHim4K");
  }

  /** Digits read one by one. */
  lemma DigitsRead(s: string, d: seq<nat>)
    requires |s| == |d| && forall i :: 0 <= i < |s| ==> Digit(s[i]) == Some(d[i])
    ensures Valid(s) && Values(s) == d
  {
    hide Digit;
  }

  lemma FirstKnown()
    ensures Valid("DaEd82_pQ40") && Numeral(0x40, Values("DaEd82_pQ40")) == 3928396500541181492
  {
    hide Numeral, Values;
    var a, b, c := [3, 26, 4, 29], [60, 54, 63, 41], [16, 56, 52];
    DigitsRead("DaEd82_pQ40", a + b + c);
    hide Digit;
    ElevenValues(a + b + c, a, b, c);
    Horner4(0x40, a);
    Horner4(0x40, b);
    Horner(0x40, c);
  }

  lemma SecondKnown()
    ensures Canonical("DerT8tHim4K") && Valid("DerT8tHim4K")
    ensures Numeral(0x40, Values("DerT8tHim4K")) == 4011387627600768522
  {
    hide Numeral, Values;
    var a, b, c := [3, 30, 43, 19], [60, 45, 7, 34], [38, 56, 10];
    DigitsRead("DerT8tHim4K", a + b + c);
    hide Digit;
    ElevenValues(a + b + c, a, b, c);
    Horner4(0x40, a);
    Horner4(0x40, b);
    Horner(0x40, c);
  }
}
