/** The kernel's own C library: string length and copy, number formatting, and the two-state format loop. */
module Klib {
  const NUL: char := '\0'
  const INT_MIN := -0x8000_0000
  const INT_MAX := 0x7FFF_FFFF
  const NUM2CH := "0123456789ABCDEF"

  // ---- C strings ----

  /** The string at the start of `s`: everything before the first NUL. */
  function CStr(s: seq<char>): string {
    if s == [] || s[0] == NUL then [] else [s[0]] + CStr(s[1..])
  }

  predicate Terminated(s: seq<char>) {
    NUL in s
  }

  /** `CStr` is the longest prefix without a NUL. */
  lemma {:induction false} CStrIsPrefix(s: seq<char>)
    ensures CStr(s) <= s && NUL !in CStr(s)
    ensures Terminated(s) <==> |CStr(s)| < |s|
    ensures |CStr(s)| < |s| ==> s[|CStr(s)|] == NUL
  {
    if s != [] && s[0] != NUL {
      CStrIsPrefix(s[1..]);
    }
  }

  lemma {:induction false} CStrAt(s: seq<char>, n: nat)
    requires n < |s| && s[n] == NUL && NUL !in s[..n]
    ensures CStr(s) == s[..n]
  {
    if n > 0 {
      assert s[0] == s[..n][0] && s[1..][..n - 1] == s[..n][1..];
      CStrAt(s[1..], n - 1);
    }
  }

  /** `s` is the memory the pointer points to. */
  method KernelStrlen(s: seq<char>) returns (count: nat)
    requires Terminated(s)
    ensures count == |CStr(s)|
    ensures count < |s| && s[count] == NUL && NUL !in s[..count]
  {
    CStrIsPrefix(s);
    count := 0;
    while s[count] != NUL
      invariant 0 <= count < |s|
      invariant count <= |CStr(s)|
      decreases |s| - count
    {
      count := count + 1;
    }
    assert s[..count] == CStr(s)[..count];
    CStrAt(s, count);
  }

  method KernelStrcpy(dest: array<char>, src: array<char>)
    requires dest != src && Terminated(src[..]) && |CStr(src[..])| < dest.Length
    modifies dest
    ensures dest[..] == CStr(src[..]) + [NUL] + old(dest[|CStr(src[..])| + 1..])
    ensures CStr(dest[..]) == CStr(src[..])
  {
    ghost var str := CStr(src[..]);
    CStrIsPrefix(src[..]);
    var i := 0;
    while src[i] != NUL
      invariant 0 <= i <= |str|
      invariant forall j :: 0 <= j < i ==> dest[j] == str[j]
      invariant forall j :: i <= j < dest.Length ==> dest[j] == old(dest[j])
      decreases src.Length - i
    {
      assert i < |str|;
      dest[i] := src[i];
      i := i + 1;
    }
    assert i == |str|;
    dest[i] := NUL;
    assert dest[..i] == str;
    CStrAt(dest[..], i);
  }

  predicate IsBase(base: int) {
    base == 2 || base == 10 || base == 16
  }

  // ---- C integer division: truncation towards zero ----

  function Quot(a: int, b: int): int
    requires b > 0
  {
    if a >= 0 then a / b else -(-a / b)
  }

  function Rem(a: int, b: int): int
    requires b > 0
  {
    a - b * Quot(a, b)
  }

  function Abs(a: int): nat {
    if a >= 0 then a else -a
  }

  lemma TruncatedDivision(a: int, b: int)
    requires IsBase(b)
    ensures Abs(Quot(a, b)) == Abs(a) / b && Abs(Rem(a, b)) == Abs(a) % b
    ensures (Rem(a, b) > 0 ==> a > 0) && (Rem(a, b) < 0 ==> a < 0)
    ensures Quot(a, b) == 0 <==> Abs(a) < b
  {
    if b == 2 {
    } else if b == 10 {
    } else {
      assert b == 16;
    }
  }

  // ---- numbers as digits ----

  function Digits(n: nat, base: nat): string
    requires IsBase(base)
  {
    if n < base then [NUM2CH[n]] else Digits(n / base, base) + [NUM2CH[n % base]]
  }

  function Itoa(num: int, base: nat): string
    requires IsBase(base)
  {
    (if num < 0 && base == 10 then "-" else "") + Digits(Abs(num), base)
  }

  function Reversed(s: string): string {
    if s == [] then [] else Reversed(s[1..]) + [s[0]]
  }

  lemma {:induction false} ReversedAt(s: string, k: nat)
    requires k < |s|
    ensures |Reversed(s)| == |s| && Reversed(s)[k] == s[|s| - 1 - k]
  {
    if |s| == 1 {
      assert Reversed(s[1..]) == [];
    } else if k == |s| - 1 {
      ReversedAt(s[1..], 0);
    } else {
      ReversedAt(s[1..], k);
    }
  }

  lemma {:induction false} ReversedAppend(s: string, c: char)
    ensures Reversed(s + [c]) == [c] + Reversed(s)
  {
    if s == [] {
      assert ([c])[1..] == [];
    } else {
      assert (s + [c])[1..] == s[1..] + [c];
      ReversedAppend(s[1..], c);
    }
  }

  lemma {:induction false} ReversedLength(s: string)
    ensures |Reversed(s)| == |s|
  {
    if s != [] {
      ReversedLength(s[1..]);
    }
  }

  lemma NothingReversed()
    ensures Reversed([]) == []
  {
  }

  lemma DigitsNonEmpty(n: nat, base: nat)
    requires IsBase(base)
    ensures Digits(n, base) != []
  {
  }

  lemma DivMod(n: nat, base: nat)
    requires IsBase(base)
    ensures 0 <= n % base < 16 && n / base >= 0
    ensures n < base ==> n % base == n
  {
    if base == 2 {
    } else if base == 10 {
    } else {
      assert base == 16;
    }
  }

  lemma DigitsUnfold(n: nat, base: nat)
    requires IsBase(base)
    ensures 0 <= n % base < 16 && n / base >= 0
    ensures n < base ==> Digits(n, base) == [NUM2CH[n % base]]
    ensures n >= base ==> Digits(n, base) == Digits(n / base, base) + [NUM2CH[n % base]]
  {
    DivMod(n, base);
    if n < base {
      assert n % base == n;
    }
  }

  /** One turn of the loop moves the lowest digit from the number to the output. */
  lemma OneDigit(n: int, base: nat, done: string)
    requires IsBase(base)
    ensures 0 <= Abs(n) % base < 16
    ensures var q := Quot(n, base);
            Digits(Abs(n), base) + Reversed(done) ==
            (if q != 0 then Digits(Abs(q), base) else []) + Reversed(done + [NUM2CH[Abs(n) % base]])
  {
    hide Reversed, Quot, Rem, Digits, Abs;
    TruncatedDivision(n, base);
    DigitsUnfold(Abs(n), base);
    ReversedAppend(done, NUM2CH[Abs(n) % base]);
  }

  /** The do-while loop: digits from the lowest up. */
  method PutDigits(buf: array<char>, start: nat, num: int, base: int) returns (p: nat)
    requires IsBase(base) && start + |Digits(Abs(num), base)| <= buf.Length
    modifies buf
    ensures p == start + |Digits(Abs(num), base)|
    ensures Reversed(buf[start..p]) == Digits(Abs(num), base)
    ensures forall j :: 0 <= j < start || p <= j < buf.Length ==> buf[j] == old(buf[j])
  {
    hide Digits, Reversed, Quot, Rem;
    p := start;
    var n, more := num, true;
    assert buf[start..p] == [];
    NothingReversed();
    while more
      invariant start <= p <= buf.Length
      invariant Digits(Abs(num), base) == (if more then Digits(Abs(n), base) else []) + Reversed(buf[start..p])
      invariant forall j :: 0 <= j < start || p <= j < buf.Length ==> buf[j] == old(buf[j])
      decreases if more then Abs(n) + 1 else 0
    {
      ghost var done := buf[start..p];
      ReversedLength(done);
      TruncatedDivision(n, base);
      var digit := if n > 0 then Rem(n, base) else -Rem(n, base);
      DigitsNonEmpty(Abs(n), base);
      OneDigit(n, base, done);
      buf[p] := NUM2CH[digit];
      p := p + 1;
      assert buf[start..p] == done + [NUM2CH[digit]];
      n := Quot(n, base);
      more := n != 0;
    }
    ReversedLength(buf[start..p]);
  }

  /** The two-pointer loop that turns a span round. */
  method ReverseSpan(buf: array<char>, start: nat, p: nat)
    requires start < p <= buf.Length
    modifies buf
    ensures buf[start..p] == Reversed(old(buf[start..p]))
    ensures forall j :: 0 <= j < start || p <= j < buf.Length ==> buf[j] == old(buf[j])
  {
    ghost var s := buf[start..p];
    var lo, hi := start, p - 1;
    while lo < hi
      invariant start <= lo <= hi + 1 && lo + hi == start + p - 1
      invariant forall j :: start <= j < lo || hi < j < p ==> buf[j] == s[p - 1 - j]
      invariant forall j :: lo <= j <= hi ==> buf[j] == s[j - start]
      invariant forall j :: 0 <= j < start || p <= j < buf.Length ==> buf[j] == old(buf[j])
    {
      buf[lo], buf[hi] := buf[hi], buf[lo];
      lo, hi := lo + 1, hi - 1;
    }
    ReversedLength(s);
    forall k | 0 <= k < |s|
      ensures buf[start..p][k] == Reversed(s)[k]
    {
      ReversedAt(s, k);
    }
  }

  method KernelItoa(buf: array<char>, start: nat, num: int, base: int) returns (p: nat)
    requires INT_MIN <= num <= INT_MAX && IsBase(base) && (num < 0 ==> base != 16)
    requires start + |Itoa(num, base)| <= buf.Length
    modifies buf
    ensures p == start + |Itoa(num, base)| && buf[start..p] == Itoa(num, base)
    ensures forall j :: 0 <= j < start || p <= j < buf.Length ==> buf[j] == old(buf[j])
  {
    hide Digits, Reversed;
    p := start;
    var flag := 0;
    if num < 0 && base == 10 {
      flag := 1;
      buf[p] := '-';
      p := p + 1;
    }
    p := PutDigits(buf, p, num, base);
    ReversedLength(buf[start + flag..p]);
    DigitsNonEmpty(Abs(num), base);
    ghost var digits := buf[start + flag..p];
    ReverseSpan(buf, start + flag, p);
    assert buf[start..p] == buf[start..start + flag] + buf[start + flag..p];
  }

  // ---- parsing the digits back ----

  function DigitValue(c: char): int {
    if '0' <= c <= '9' then c as int - '0' as int
    else if 'A' <= c <= 'F' then c as int - 'A' as int + 10
    else -1
  }

  predicate IsNumeral(s: string, base: nat) {
    s != [] && forall i :: 0 <= i < |s| ==> 0 <= DigitValue(s[i]) < base
  }

  function Value(s: string, base: nat): int {
    if s == [] then 0 else Value(s[..|s| - 1], base) * base + DigitValue(s[|s| - 1])
  }

  function Parse(s: string, base: nat): int {
    if s != [] && s[0] == '-' then -Value(s[1..], base) else Value(s, base)
  }

  lemma DigitOf(d: nat)
    requires d < 16
    ensures DigitValue(NUM2CH[d]) == d
    ensures NUM2CH[d] == '0' <==> d == 0
  {
    var c := NUM2CH;
    assert |c| == 16 && c[0] == '0' && c[1] == '1' && c[2] == '2' && c[3] == '3' && c[4] == '4' && c[5] == '5' &&
           c[6] == '6' && c[7] == '7' && c[8] == '8' && c[9] == '9' && c[10] == 'A' && c[11] == 'B' && c[12] == 'C' &&
           c[13] == 'D' && c[14] == 'E' && c[15] == 'F';
  }

  lemma {:induction false} DigitsParse(n: nat, base: nat)
    requires IsBase(base)
    ensures IsNumeral(Digits(n, base), base) && Value(Digits(n, base), base) == n
    ensures |Digits(n, base)| > 1 ==> Digits(n, base)[0] != '0'
    ensures n > 0 ==> Digits(n, base)[0] != '0'
  {
    var s := Digits(n, base);
    if n < base {
      DigitOf(n);
      assert s[..0] == [] && Value(s[..0], base) == 0;
    } else {
      DigitsParse(n / base, base);
      DigitOf(n % base);
      assert s[..|s| - 1] == Digits(n / base, base);
      assert n == n / base * base + n % base;
    }
  }

  /** Parsing gives the number back: base 10 for every 32-bit value, base 2 and 16 for the non-negative ones. A negative
      number in base 2 comes out as its magnitude. No digit string starts with a superfluous zero. */
  lemma ItoaRoundTrip(num: int, base: nat)
    requires IsBase(base)
    ensures Parse(Itoa(num, base), base) == if base == 10 then num else Abs(num)
    ensures var s := Itoa(num, base);
            var digits := if num < 0 && base == 10 then s[1..] else s;
            IsNumeral(digits, base) && (|digits| > 1 ==> digits[0] != '0')
  {
    hide Digits, Value;
    DigitsParse(Abs(num), base);
    var d := Digits(Abs(num), base);
    assert ("-" + d)[1..] == d;
    assert d[0] != '-';
    assert "" + d == d;
  }

  /** Two 32-bit numbers never print the same in base 10; in base 2 exactly when they have the same magnitude. */
  lemma ItoaInjective(a: int, b: int, base: nat)
    requires IsBase(base)
    ensures Itoa(a, base) == Itoa(b, base) <==> a == b || (base != 10 && Abs(a) == Abs(b))
  {
    ItoaRoundTrip(a, base);
    ItoaRoundTrip(b, base);
  }

  /** The digits are the only numeral without a superfluous zero that has the value. */
  lemma {:induction false} DigitsUnique(s: string, base: nat)
    requires IsBase(base) && IsNumeral(s, base) && (|s| > 1 ==> s[0] != '0')
    ensures Value(s, base) >= 0 && s == Digits(Value(s, base), base)
  {
    hide Digits, DigitValue, Value;
    var init, c := s[..|s| - 1], s[|s| - 1];
    assert s == init + [c];
    DigitBack(c);
    LastDigit(s, base);
    if init == [] {
      OneDigitNumber(DigitValue(c), base);
    } else {
      NumeralPrefix(s, base);
      DigitsUnique(init, base);
      LeadingPositive(init, base);
      DigitsSnoc(Value(init, base), DigitValue(c), base);
    }
  }

  lemma LastDigit(s: string, base: nat)
    requires s != []
    ensures Value(s, base) == Value(s[..|s| - 1], base) * base + DigitValue(s[|s| - 1])
    ensures |s| == 1 ==> Value(s, base) == DigitValue(s[0])
  {
    hide DigitValue;
    if |s| == 1 {
      assert s[..|s| - 1] == [] && Value([], base) == 0;
    }
  }

  lemma NumeralPrefix(s: string, base: nat)
    requires IsNumeral(s, base) && |s| > 1
    ensures IsNumeral(s[..|s| - 1], base)
  {
    hide DigitValue;
  }

  lemma OneDigitNumber(d: nat, base: nat)
    requires IsBase(base) && d < base
    ensures Digits(d, base) == [NUM2CH[d]]
  {
  }

  lemma DigitsSnoc(v: nat, d: nat, base: nat)
    requires IsBase(base) && d < base && v > 0
    ensures v * base + d >= 0 && Digits(v * base + d, base) == Digits(v, base) + [NUM2CH[d]]
  {
    if base == 2 {
      assert (v * 2 + d) / 2 == v;
    } else if base == 10 {
      assert (v * 10 + d) / 10 == v;
    } else {
      assert base == 16 && (v * 16 + d) / 16 == v;
    }
  }

  lemma DigitBack(c: char)
    requires 0 <= DigitValue(c) < 16
    ensures NUM2CH[DigitValue(c)] == c
  {
    DigitOf(DigitValue(c));
  }

  lemma {:induction false} LeadingPositive(s: string, base: nat)
    requires IsBase(base) && IsNumeral(s, base) && s[0] != '0'
    ensures Value(s, base) > 0
  {
    hide DigitValue, Value;
    LastDigit(s, base);
    if |s| == 1 {
      DigitBack(s[0]);
      DigitOf(DigitValue(s[0]));
    } else {
      NumeralPrefix(s, base);
      LeadingPositive(s[..|s| - 1], base);
      assert Value(s[..|s| - 1], base) * base > 0;
    }
  }

  function Pow(base: nat, k: nat): nat {
    if k == 0 then 1 else base * Pow(base, k - 1)
  }

  lemma {:induction false} DigitsLength(n: nat, base: nat, k: nat)
    requires IsBase(base) && 1 <= k && n < Pow(base, k)
    ensures |Digits(n, base)| <= k
  {
    if n >= base {
      assert Pow(base, 1) == base;
      assert n / base < Pow(base, k - 1) by { Below(n, Pow(base, k - 1), base); }
      DigitsLength(n / base, base, k - 1);
    }
  }

  lemma Below(n: nat, q: nat, base: nat)
    requires IsBase(base) && n < base * q
    ensures n / base < q
  {
    if base == 2 {
    } else if base == 10 {
    } else {
      assert base == 16;
    }
  }

  /** The longest output in each base: "-2147483648", thirty-two binary digits for INT_MIN, "7FFFFFFF". */
  lemma ItoaLength(num: int, base: nat)
    requires INT_MIN <= num <= INT_MAX && IsBase(base) && (num < 0 ==> base != 16)
    ensures |Itoa(num, base)| <= if base == 10 then 11 else if base == 2 then 32 else 8
  {
    Powers();
    DigitsLength(Abs(num), base, if base == 10 then 10 else if base == 2 then 32 else 8);
  }

  lemma Powers()
    ensures Pow(10, 10) == 10_000_000_000 && Pow(2, 32) == 0x1_0000_0000 && Pow(16, 8) == 0x1_0000_0000
  {
    assert Pow(10, 5) == 100_000;
    assert Pow(16, 4) == 0x1_0000;
    assert Pow(2, 8) == 0x100;
    assert Pow(2, 16) == 0x1_0000;
    assert Pow(2, 24) == 0x100_0000;
  }
}
