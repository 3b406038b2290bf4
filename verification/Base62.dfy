/** Fixed-width base62 rendering of key material (internal/controlplane/keys.go). */
module Base62 {
  const ALPHABET: string := "0123456789" + "ABCDEFGHIJKLM" + "NOPQRSTUVWXYZ" + "abcdefghijklm" + "nopqrstuvwxyz"
  const KEY_LEN: nat := 43

  type Byte = b: int | 0 <= b < 256

  function Pow(b: nat, e: nat): nat {
    if e == 0 then 1 else b * Pow(b, e - 1)
  }

  /** Big-endian value of a byte string, as big.Int.SetBytes reads it. */
  function ValueOf(b: seq<Byte>): nat {
    if b == [] then 0 else 256 * ValueOf(b[..|b| - 1]) + b[|b| - 1]
  }

  predicate Digits(d: seq<int>) {
    forall i :: 0 <= i < |d| ==> 0 <= d[i] < 62
  }

  /** Value of base62 digits, most significant first. */
  function Decode(d: seq<int>): int {
    if d == [] then 0 else 62 * Decode(d[..|d| - 1]) + d[|d| - 1]
  }

  /** Value of base62 digits, least significant first, as the division loop produces them. */
  function DecodeLow(d: seq<int>): int {
    if d == [] then 0 else d[0] + 62 * DecodeLow(d[1..])
  }

  function Reversed(d: seq<int>): seq<int> {
    if d == [] then [] else Reversed(d[1..]) + [d[0]]
  }

  lemma {:induction false} DecodeOfReversed(d: seq<int>)
    ensures Decode(Reversed(d)) == DecodeLow(d)
  {
    if d != [] {
      DecodeOfReversed(d[1..]);
      assert Reversed(d)[..|Reversed(d)| - 1] == Reversed(d[1..]);
    }
  }

  lemma {:induction false} ReversedAt(d: seq<int>, k: nat)
    requires k < |d|
    ensures |Reversed(d)| == |d| && Reversed(d)[k] == d[|d| - 1 - k]
  {
    if |d| > 1 {
      ReversedAt(d[1..], if k < |d| - 1 then k else 0);
    }
  }

  lemma {:induction false} DecodeLowAppend(d: seq<int>, x: int)
    ensures DecodeLow(d + [x]) == DecodeLow(d) + Pow(62, |d|) * x
  {
    if d == [] {
      assert [] + [x] == [x];
    } else {
      DecodeLowAppend(d[1..], x);
      assert (d + [x])[1..] == d[1..] + [x];
      Reassociate(62, Pow(62, |d| - 1), x);
    }
  }

  // ---------- The bound: 32 bytes always fit 43 digits, and need them ----------

  lemma Reassociate(x: int, y: int, z: int)
    ensures x * (y * z) == (x * y) * z
  {
  }

  lemma {:induction false} PowAdd(b: nat, m: nat, n: nat)
    ensures Pow(b, m + n) == Pow(b, m) * Pow(b, n)
  {
    if m > 0 {
      PowAdd(b, m - 1, n);
      Reassociate(b, Pow(b, m - 1), Pow(b, n));
    }
  }

  lemma {:induction false} ValueBound(b: seq<Byte>)
    ensures ValueOf(b) < Pow(256, |b|)
  {
    if b != [] {
      ValueBound(b[..|b| - 1]);
    }
  }

  /** 62^42 < 2^256 <= 62^43: 43 digits are enough for 32 bytes and 42 are not. */
  lemma KeyLenIsTight()
    ensures Pow(62, 42) < Pow(256, 32) <= Pow(62, 43)
  {
    assert Pow(62, 3) == 238328;
    PowDoubles(62, 3, 238328);
    PowDoubles(62, 6, 56800235584);
    PowDoubles(62, 12, 3226266762397899821056);
    PowAdd(62, 24, 12);
    PowAdd(62, 36, 6);
    assert Pow(62, 43) == 62 * Pow(62, 42);
    assert Pow(256, 4) == 4294967296;
    PowDoubles(256, 4, 4294967296);
    PowDoubles(256, 8, 18446744073709551616);
    PowDoubles(256, 16, 340282366920938463463374607431768211456);
  }

  lemma PowDoubles(b: nat, e: nat, value: nat)
    requires Pow(b, e) == value
    ensures Pow(b, 2 * e) == value * value
  {
    PowAdd(b, e, e);
  }

  // ---------- The encoder ----------

  lemma DivideStep(scale: int, n: int)
    ensures scale * n == scale * (n % 62) + (62 * scale) * (n / 62)
  {
    assert n == 62 * (n / 62) + n % 62;
  }

  /** Repeated division: n's digits, least significant first. */
  method Divide(value: nat) returns (out: seq<int>)
    ensures Digits(out) && DecodeLow(out) == value
    ensures out != [] ==> out[|out| - 1] != 0
  {
    var n := value;
    out := [];
    ghost var scale := 1;
    while n > 0
      invariant Digits(out) && scale == Pow(62, |out|)
      invariant DecodeLow(out) + scale * n == value
      invariant n == 0 && out != [] ==> out[|out| - 1] != 0
    {
      DecodeLowAppend(out, n % 62);
      DivideStep(scale, n);
      out := out + [n % 62];
      n := n / 62;
      scale := 62 * scale;
    }
  }

  /** A number whose top digit is not zero is at least that digit's weight. */
  lemma TopDigitWeighs(d: seq<int>)
    requires Digits(d) && d != [] && d[|d| - 1] != 0
    ensures Pow(62, |d| - 1) <= DecodeLow(d)
  {
    hide Pow, DecodeLow;
    var n := |d| - 1;
    assert d == d[..n] + [d[n]];
    DecodeLowAppend(d[..n], d[n]);
    DecodeLowNonNegative(d[..n]);
    PowMonotone(0, n);
    TimesPositive(Pow(62, n), d[n]);
  }

  lemma TimesPositive(p: int, x: int)
    requires p >= 0 && x >= 1
    ensures p <= p * x
  {
  }

  /** Digits without a superfluous top zero are no more numerous than the bound on their value allows. */
  lemma DigitsBounded(d: seq<int>, k: nat)
    requires Digits(d) && (d != [] ==> d[|d| - 1] != 0)
    requires DecodeLow(d) < Pow(62, k)
    ensures |d| <= k
  {
    if |d| > k {
      TopDigitWeighs(d);
      PowMonotone(k, |d| - 1);
    }
  }

  lemma {:induction false} DecodeLowNonNegative(d: seq<int>)
    requires Digits(d)
    ensures DecodeLow(d) >= 0
  {
    if d != [] {
      DecodeLowNonNegative(d[1..]);
    }
  }

  lemma {:induction false} PowMonotone(m: nat, n: nat)
    requires m <= n
    ensures 0 < Pow(62, m) <= Pow(62, n)
  {
    if n > m {
      PowMonotone(m, n - 1);
    } else if m > 0 {
      PowMonotone(m - 1, m - 1);
    }
  }

  /** Reverses a digit buffer in place. */
  method ReverseInPlace(a: array<int>)
    modifies a
    ensures a[..] == Reversed(old(a[..]))
  {
    var i, j := 0, a.Length - 1;
    while i < j
      invariant 0 <= i <= a.Length && i + j == a.Length - 1 && i <= j + 1
      invariant forall k :: 0 <= k < i || j < k < a.Length ==> a[k] == old(a[a.Length - 1 - k])
      invariant forall k :: i <= k <= j ==> a[k] == old(a[k])
    {
      a[i], a[j] := a[j], a[i];
      i, j := i + 1, j - 1;
    }
    ghost var was := old(a[..]);
    if a.Length == 0 {
      assert was == [] && a[..] == [];
    } else {
      forall k | 0 <= k < a.Length
        ensures |Reversed(was)| == |was| && a[k] == Reversed(was)[k]
      {
        ReversedAt(was, k);
      }
      ReversedAt(was, 0);
    }
  }

  function Render(d: seq<int>): string
    requires Digits(d)
  {
    seq(|d|, i requires 0 <= i < |d| => ALPHABET[d[i]])
  }

  /** Encodes any byte string; the digits are returned beside their rendering. */
  method Encode(b: seq<Byte>) returns (text: string, digits: seq<int>)
    ensures Digits(digits) && text == Render(digits)
    ensures Decode(digits) == ValueOf(b)
    ensures |digits| >= KEY_LEN
    ensures |b| <= 32 ==> |text| == KEY_LEN
  {
    var out := Divide(ValueOf(b));
    if |b| <= 32 {
      ValueBound(b);
      Pow256Monotone(|b|, 32);
      KeyLenIsTight();
      DigitsBounded(out, KEY_LEN);
    }
    ghost var n := |out|;
    while |out| < KEY_LEN
      invariant Digits(out) && DecodeLow(out) == ValueOf(b)
      invariant n <= |out| <= if n < KEY_LEN then KEY_LEN else n
    {
      DecodeLowAppend(out, 0);
      out := out + [0];
    }
    var buffer := new int[|out|](i requires 0 <= i < |out| => out[i]);
    assert buffer[..] == out;
    ReverseInPlace(buffer);
    digits := buffer[..];
    DecodeOfReversed(out);
    forall k | 0 <= k < |digits| ensures 0 <= digits[k] < 62 {
      ReversedAt(out, k);
    }
    text := Render(digits);
  }

  lemma {:induction false} Pow256Monotone(m: nat, n: nat)
    requires m <= n
    ensures 0 < Pow(256, m) <= Pow(256, n)
  {
    if n > m {
      Pow256Monotone(m, n - 1);
    } else if m > 0 {
      Pow256Monotone(m - 1, m - 1);
    }
  }

  // ---------- Order and injectivity ----------

  /** Lexicographic order by character, as Go compares strings of equal length. */
  predicate Before(s: string, t: string)
    requires |s| == |t|
  {
    s != "" && (s[0] < t[0] || (s[0] == t[0] && Before(s[1..], t[1..])))
  }

  /** The character of a digit: 0-9, then A-Z, then a-z. */
  predicate IsNumeral(d: int, c: char) {
    || (0 <= d < 10 && c as int == '0' as int + d)
    || (10 <= d < 36 && c as int == 'A' as int + d - 10)
    || (36 <= d < 62 && c as int == 'a' as int + d - 36)
  }

  /** The ten digits, two halves of the capitals, and two halves of the small letters, each in order. */
  lemma AlphabetIsNumerals(d: int)
    requires 0 <= d < 62
    ensures IsNumeral(d, ALPHABET[d])
  {
    if d < 10 {
      assert ALPHABET[d] == "0123456789"[d];
      TenDigits(d);
    } else if d < 36 {
      CapitalsAreNumerals(d);
    } else {
      SmallsAreNumerals(d);
    }
  }

  lemma CapitalsAreNumerals(d: int)
    requires 10 <= d < 36
    ensures IsNumeral(d, ALPHABET[d])
  {
    if d < 23 {
      assert ALPHABET[d] == "ABCDEFGHIJKLM"[d - 10];
      Capitals(d - 10);
    } else {
      assert ALPHABET[d] == "NOPQRSTUVWXYZ"[d - 23];
      Capitals(d - 23);
    }
  }

  lemma SmallsAreNumerals(d: int)
    requires 36 <= d < 62
    ensures IsNumeral(d, ALPHABET[d])
  {
    if d < 49 {
      assert ALPHABET[d] == "abcdefghijklm"[d - 36];
      Smalls(d - 36);
    } else {
      assert ALPHABET[d] == "nopqrstuvwxyz"[d - 49];
      Smalls(d - 49);
    }
  }

  lemma TenDigits(i: nat)
    requires i < 10
    ensures "0123456789"[i] as int == '0' as int + i
  {
  }

  lemma Capitals(i: nat)
    requires i < 13
    ensures "ABCDEFGHIJKLM"[i] as int == 'A' as int + i && "NOPQRSTUVWXYZ"[i] as int == 'N' as int + i
  {
  }

  lemma Smalls(i: nat)
    requires i < 13
    ensures "abcdefghijklm"[i] as int == 'a' as int + i && "nopqrstuvwxyz"[i] as int == 'n' as int + i
  {
  }

  /** The alphabet is in ascending ASCII order. */
  lemma AlphabetAscends(i: nat, j: nat)
    requires i < j < 62
    ensures ALPHABET[i] < ALPHABET[j]
  {
    hide ALPHABET;
    AlphabetIsNumerals(i);
    AlphabetIsNumerals(j);
  }

  lemma {:induction false} DecodeOfCons(d: seq<int>)
    requires d != []
    ensures Decode(d) == d[0] * Pow(62, |d| - 1) + Decode(d[1..])
  {
    if |d| > 1 {
      var init := d[..|d| - 1];
      DecodeOfCons(init);
      assert init[1..] == d[1..][..|d| - 2];
      assert 62 * (d[0] * Pow(62, |d| - 2)) == d[0] * Pow(62, |d| - 1);
    }
  }

  lemma {:induction false} DecodeRange(d: seq<int>)
    requires Digits(d)
    ensures 0 <= Decode(d) < Pow(62, |d|)
  {
    if d != [] {
      DecodeRange(d[..|d| - 1]);
    }
  }

  /** The leading digit decides between numbers of one length. */
  lemma HeadDecides(x: int, y: int, p: int, a: int, b: int)
    requires 0 <= a < p && 0 <= b && x < y
    ensures x * p + a < y * p + b
  {
    assert (x + 1) * p <= y * p;
  }

  /** String order of two renderings of one length is the order of the numbers they encode. */
  lemma {:induction false} StringOrderIsNumericOrder(d: seq<int>, e: seq<int>)
    requires Digits(d) && Digits(e) && |d| == |e|
    ensures Before(Render(d), Render(e)) <==> Decode(d) < Decode(e)
  {
    if d != [] {
      var s, t := Render(d), Render(e);
      assert s[0] == ALPHABET[d[0]] && t[0] == ALPHABET[e[0]];
      assert s[1..] == Render(d[1..]) && t[1..] == Render(e[1..]);
      if d[0] < e[0] {
        AlphabetAscends(d[0], e[0]);
        LeadingDigitDecides(d, e);
      } else if e[0] < d[0] {
        AlphabetAscends(e[0], d[0]);
        LeadingDigitDecides(e, d);
      } else {
        StringOrderIsNumericOrder(d[1..], e[1..]);
        DecodeOfCons(d);
        DecodeOfCons(e);
      }
    }
  }

  lemma LeadingDigitDecides(d: seq<int>, e: seq<int>)
    requires Digits(d) && Digits(e) && |d| == |e| > 0 && d[0] < e[0]
    ensures Decode(d) < Decode(e)
  {
    DecodeOfCons(d);
    DecodeOfCons(e);
    DecodeRange(d[1..]);
    DecodeRange(e[1..]);
    HeadDecides(d[0], e[0], Pow(62, |d| - 1), Decode(d[1..]), Decode(e[1..]));
  }

  /** The rendering determines the digits, so distinct values of one width get distinct texts. */
  lemma RenderInjective(d: seq<int>, e: seq<int>)
    requires Digits(d) && Digits(e) && Render(d) == Render(e)
    ensures d == e
  {
    assert |Render(d)| == |d| && |Render(e)| == |e|;
    forall i | 0 <= i < |d| ensures d[i] == e[i] {
      assert Render(d)[i] == Render(e)[i];
      if d[i] < e[i] {
        AlphabetAscends(d[i], e[i]);
      } else if e[i] < d[i] {
        AlphabetAscends(e[i], d[i]);
      }
    }
  }
}
