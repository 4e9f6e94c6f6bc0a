/** `kernel_vsprintf`: a loop over characters with two states, proved equal to a token-by-token renderer. */
module Format {
  import opened Klib

  /** What `va_arg` finds: the memory a string pointer points to, or an int. */
  datatype Arg = Str(memory: seq<char>) | Num(n: int)

  datatype FmtState = Normal | ReadFmt

  // ---- the renderer ----

  predicate IsInt(args: seq<Arg>) {
    args != [] && args[0].Num? && INT_MIN <= args[0].n <= INT_MAX
  }

  /** The caller passed what the directive `c` reads; `%x` must not see a negative number. */
  predicate PieceOk(c: char, args: seq<Arg>) {
    && (c == 's' ==> args != [] && args[0].Str? && Terminated(args[0].memory))
    && (c == 'd' || c == 'c' ==> IsInt(args))
    && (c == 'x' ==> IsInt(args) && args[0].n >= 0)
  }

  function Takes(c: char): nat {
    if c == 's' || c == 'd' || c == 'x' || c == 'c' then 1 else 0
  }

  /** What a directive prints. An int printed as a character is cut to its low byte. */
  function Piece(c: char, args: seq<Arg>): string
    requires PieceOk(c, args)
  {
    if c == 's' then CStr(args[0].memory)
    else if c == 'd' then Itoa(args[0].n, 10)
    else if c == 'x' then Itoa(args[0].n, 16)
    else if c == 'c' then [(args[0].n % 256) as char]
    else if c == '%' then "%"
    else "?"
  }

  predicate Matches(f: string, args: seq<Arg>)
    decreases |f|
  {
    f == [] ||
    if f[0] != '%' then Matches(f[1..], args)
    else |f| == 1 || (PieceOk(f[1], args) && Takes(f[1]) <= |args| && Matches(f[2..], args[Takes(f[1])..]))
  }

  function Render(f: string, args: seq<Arg>): string
    requires Matches(f, args)
    decreases |f|
  {
    if f == [] then []
    else if f[0] != '%' then [f[0]] + Render(f[1..], args)
    else if |f| == 1 then []
    else Piece(f[1], args) + Render(f[2..], args[Takes(f[1])..])
  }

  // ---- the loop ----

  /** Copying `size` characters from where `str` points. */
  method PutString(buf: array<char>, at: nat, str: seq<char>, size: nat) returns (p: nat)
    requires size <= |str| && at + size <= buf.Length
    modifies buf
    ensures p == at + size && buf[at..p] == str[..size]
    ensures forall j :: 0 <= j < at || p <= j < buf.Length ==> buf[j] == old(buf[j])
  {
    p := at;
    var len, i := size, 0;
    while len > 0
      invariant i + len == size && p == at + i
      invariant forall j :: 0 <= j < i ==> buf[at + j] == str[j]
      invariant forall j :: 0 <= j < at || at + i <= j < buf.Length ==> buf[j] == old(buf[j])
    {
      len := len - 1;
      buf[p] := str[i];
      p, i := p + 1, i + 1;
    }
  }

  /** The branch of the loop that handles the character after a '%'. */
  method PutPiece(buf: array<char>, at: nat, ch: char, args: seq<Arg>) returns (p: nat)
    requires PieceOk(ch, args) && at + |Piece(ch, args)| <= buf.Length
    modifies buf
    ensures p == at + |Piece(ch, args)| && buf[at..p] == Piece(ch, args)
    ensures forall j :: 0 <= j < at || p <= j < buf.Length ==> buf[j] == old(buf[j])
  {
    hide Itoa, CStr;
    if ch == 's' {
      var str := args[0].memory;
      var len := KernelStrlen(str);
      CStrIsPrefix(str);
      p := PutString(buf, at, str, len);
    } else if ch == 'd' {
      p := KernelItoa(buf, at, args[0].n, 10);
    } else if ch == 'x' {
      p := KernelItoa(buf, at, args[0].n, 16);
    } else {
      if ch == 'c' {
        buf[at] := (args[0].n % 256) as char;
      } else if ch == '%' {
        buf[at] := '%';
      } else {
        buf[at] := '?';
      }
      p := at + 1;
    }
  }

  /** What is left to render: in the second state the '%' has been read already. */
  function Left(state: FmtState, rest: string): string {
    (if state == ReadFmt then "%" else "") + rest
  }

  method KernelVsprintf(buf: array<char>, fmt: array<char>, args: seq<Arg>) returns (current: nat)
    requires buf != fmt && Terminated(fmt[..]) && Matches(CStr(fmt[..]), args)
    requires |Render(CStr(fmt[..]), args)| < buf.Length
    modifies buf
    ensures current == |Render(CStr(fmt[..]), args)| && buf[..current] == Render(CStr(fmt[..]), args)
    ensures buf[current] == NUL
    ensures forall j :: current < j < buf.Length ==> buf[j] == old(buf[j])
  {
    hide Render, Matches, PieceOk, Piece, Takes, Left, CStr;
    ghost var f, whole := CStr(fmt[..]), Render(CStr(fmt[..]), args);
    CStrIsPrefix(fmt[..]);
    var state, i, a := Normal, 0, 0;
    current := 0;
    LeftSteps(f, 0);
    assert f[0..] == f && args[0..] == args;
    while fmt[i] != NUL
      invariant 0 <= i <= |f| < fmt.Length && 0 <= a <= |args| && current <= |whole|
      invariant Matches(Left(state, f[i..]), args[a..])
      invariant whole == buf[..current] + Render(Left(state, f[i..]), args[a..])
      invariant forall j :: current <= j < buf.Length ==> buf[j] == old(buf[j])
      decreases fmt.Length - i
    {
      var ch := fmt[i];
      ghost var left := Left(state, f[i..]);
      assert i < |f| && ch == f[i];
      LeftSteps(f, i);
      if state == Normal {
        if ch == '%' {
          state := ReadFmt;
        } else {
          PlainStep(left, args[a..]);
          buf[current] := ch;
          current := current + 1;
        }
      } else {
        DirectiveStep(left, args[a..]);
        ghost var done := buf[..current];
        var p := PutPiece(buf, current, ch, args[a..]);
        assert buf[..p] == done + buf[current..p];
        current := p;
        assert args[a..][Takes(ch)..] == args[a + Takes(ch)..];
        a := a + Takes(ch);
        state := Normal;
      }
      i := i + 1;
    }
    assert i == |f|;
    NothingLeft(state, args[a..]);
    assert f[i..] == [] && buf[..current] == whole;
    buf[current] := NUL;
    assert buf[..current] == whole;
  }

  lemma LeftSteps(f: string, i: nat)
    requires i <= |f|
    ensures Left(Normal, f[i..]) == f[i..]
    ensures i < |f| ==>
              && Left(Normal, f[i..])[0] == f[i] && Left(Normal, f[i..])[1..] == Left(Normal, f[i + 1..])
              && (f[i] == '%' ==> Left(ReadFmt, f[i + 1..]) == Left(Normal, f[i..]))
              && |Left(ReadFmt, f[i..])| >= 2 && Left(ReadFmt, f[i..])[0] == '%' && Left(ReadFmt, f[i..])[1] == f[i]
              && Left(ReadFmt, f[i..])[2..] == Left(Normal, f[i + 1..])
  {
  }

  lemma PlainStep(f: string, args: seq<Arg>)
    requires f != [] && f[0] != '%' && Matches(f, args)
    ensures Matches(f[1..], args) && Render(f, args) == [f[0]] + Render(f[1..], args)
  {
  }

  lemma DirectiveStep(f: string, args: seq<Arg>)
    requires |f| >= 2 && f[0] == '%' && Matches(f, args)
    ensures PieceOk(f[1], args) && Takes(f[1]) <= |args| && Matches(f[2..], args[Takes(f[1])..])
    ensures Render(f, args) == Piece(f[1], args) + Render(f[2..], args[Takes(f[1])..])
  {
  }

  lemma NothingLeft(state: FmtState, args: seq<Arg>)
    ensures Matches(Left(state, []), args) && Render(Left(state, []), args) == []
  {
  }

  // ---- laws of formatting ----

  /** The state the loop is in after reading `f`. */
  function StateAfter(f: string, state: FmtState): FmtState {
    if f == [] then state
    else StateAfter(f[1..], if state == Normal && f[0] == '%' then ReadFmt else Normal)
  }

  function ArgsUsed(f: string): nat
    decreases |f|
  {
    if f == [] then 0
    else if f[0] != '%' then ArgsUsed(f[1..])
    else if |f| == 1 then 0
    else Takes(f[1]) + ArgsUsed(f[2..])
  }

  /** A format consumed in the first state composes with any other, each with its own arguments. */
  lemma {:induction false} RenderAppend(f: string, g: string, a: seq<Arg>, b: seq<Arg>)
    requires StateAfter(f, Normal) == Normal
    requires Matches(f, a) && ArgsUsed(f) == |a| && Matches(g, b)
    ensures Matches(f + g, a + b) && Render(f + g, a + b) == Render(f, a) + Render(g, b)
    decreases |f|
  {
    hide PieceOk, Piece;
    if f == [] {
      assert f + g == g && a + b == b;
    } else if f[0] != '%' {
      assert (f + g)[1..] == f[1..] + g;
      RenderAppend(f[1..], g, a, b);
    } else {
      var n := Takes(f[1]);
      assert f[1..][1..] == f[2..];
      assert (f + g)[2..] == f[2..] + g && (a + b)[n..] == a[n..] + b;
      RenderAppend(f[2..], g, a[n..], b);
      MoreArgs(f[1], a, b);
    }
  }

  lemma MoreArgs(c: char, a: seq<Arg>, b: seq<Arg>)
    requires PieceOk(c, a)
    ensures PieceOk(c, a + b) && Piece(c, a + b) == Piece(c, a)
  {
  }

  /** Where the first format stops inside a directive, composition fails. */
  lemma SplitInsideDirective(f: string, a: seq<Arg>)
    requires Matches(f, a) && ArgsUsed(f) == |a| && StateAfter(f, Normal) == ReadFmt
    ensures Matches("%", []) && Matches(f + "%", a + [])
    ensures Render(f + "%", a + []) != Render(f, a) + Render("%", [])
  {
    assert a + [] == a;
    TrailingPercent(f, a);
  }

  /** A trailing lone '%' prints nothing, and a second one after it prints one. */
  lemma {:induction false} TrailingPercent(f: string, a: seq<Arg>)
    requires Matches(f, a)
    ensures Matches(f + "%", a)
    ensures Render(f + "%", a) == Render(f, a) + if StateAfter(f, Normal) == ReadFmt then "%" else ""
    decreases |f|
  {
    hide PieceOk, Piece;
    if f == [] {
      assert f + "%" == "%";
    } else if f[0] != '%' {
      assert (f + "%")[1..] == f[1..] + "%";
      TrailingPercent(f[1..], a);
    } else if |f| == 1 {
      assert f + "%" == "%%" && f[1..] == [] && "%%"[2..] == [];
      TwoPercents(a);
    } else {
      var n := Takes(f[1]);
      assert f[1..][1..] == f[2..] && (f + "%")[2..] == f[2..] + "%";
      TrailingPercent(f[2..], a[n..]);
    }
  }

  lemma TwoPercents(a: seq<Arg>)
    ensures PieceOk('%', a) && Takes('%') == 0 && Piece('%', a) == "%"
  {
  }

  /** A directive the loop does not know prints '?' and takes no argument. */
  lemma UnknownDirective(c: char, f: string, a: seq<Arg>)
    requires c !in "sdxc%" && Matches(f, a)
    ensures Matches(['%', c] + f, a) && Render(['%', c] + f, a) == "?" + Render(f, a)
  {
    assert c != 's' && c != 'd' && c != 'x' && c != 'c' && c != '%' by {
      var known := "sdxc%";
      assert known[0] == 's' && known[1] == 'd' && known[2] == 'x' && known[3] == 'c' && known[4] == '%';
    }
    assert (['%', c] + f)[2..] == f;
    assert a[0..] == a;
  }

  /** `text` with every '%' doubled. */
  function Escaped(text: string): string {
    if text == [] then [] else (if text[0] == '%' then "%%" else [text[0]]) + Escaped(text[1..])
  }

  /** Doubling the percent signs prints any text as it stands. */
  lemma {:induction false} EscapedPrintsItself(text: string, args: seq<Arg>)
    ensures Matches(Escaped(text), args) && Render(Escaped(text), args) == text
  {
    if text != [] {
      EscapedPrintsItself(text[1..], args);
      var rest := Escaped(text[1..]);
      if text[0] == '%' {
        assert ("%%" + rest)[2..] == rest && args[0..] == args;
        TwoPercents(args);
      } else {
        assert ([text[0]] + rest)[1..] == rest;
      }
    }
  }

  // ---- what each directive prints ----

  /** `s` is `n` in decimal: a minus sign for a negative number, then digits without a superfluous zero. */
  predicate IsDecimal(s: string, n: int) {
    (n < 0 ==> s != [] && s[0] == '-') &&
    var digits := if n < 0 then s[1..] else s;
    && IsNumeral(digits, 10) && (|digits| > 1 ==> digits[0] != '0')
    && Value(digits, 10) == Abs(n)
  }

  /** `s` is `n` in hexadecimal digits without a superfluous zero. */
  predicate IsHex(s: string, n: int) {
    IsNumeral(s, 16) && (|s| > 1 ==> s[0] != '0') && Value(s, 16) == n
  }

  lemma DirectivePrints(c: char, g: string, x: Arg, a: seq<Arg>)
    requires Takes(c) == 1 && PieceOk(c, [x]) && Matches(g, a)
    ensures Matches(['%', c] + g, [x] + a)
    ensures Render(['%', c] + g, [x] + a) == Piece(c, [x]) + Render(g, a)
  {
    assert (['%', c] + g)[2..] == g && ([x] + a)[1..] == a;
    MoreArgs(c, [x], a);
  }

  /** `%d` prints its argument in decimal. */
  lemma PrintsDecimal(n: int, g: string, a: seq<Arg>) returns (s: string)
    requires INT_MIN <= n <= INT_MAX && Matches(g, a)
    ensures Matches("%d" + g, [Num(n)] + a) && Render("%d" + g, [Num(n)] + a) == s + Render(g, a)
    ensures IsDecimal(s, n) && Parse(s, 10) == n
  {
    hide Render, Matches, Value, Digits;
    assert "%d" == ['%', 'd'];
    DirectivePrints('d', g, Num(n), a);
    s := Itoa(n, 10);
    ItoaRoundTrip(n, 10);
    DigitsParse(Abs(n), 10);
    if n < 0 {
      assert s[1..] == Digits(Abs(n), 10);
    }
  }

  /** `%x` prints its argument in hexadecimal. */
  lemma PrintsHex(n: int, g: string, a: seq<Arg>) returns (s: string)
    requires 0 <= n <= INT_MAX && Matches(g, a)
    ensures Matches("%x" + g, [Num(n)] + a) && Render("%x" + g, [Num(n)] + a) == s + Render(g, a)
    ensures IsHex(s, n)
  {
    hide Render, Matches, Value, Digits;
    assert "%x" == ['%', 'x'];
    DirectivePrints('x', g, Num(n), a);
    s := Itoa(n, 16);
    DigitsParse(n, 16);
    assert s == Digits(n, 16);
  }

  /** `%s` prints the memory its argument points to up to the first NUL. */
  lemma PrintsString(memory: seq<char>, g: string, a: seq<Arg>) returns (s: string)
    requires NUL in memory && Matches(g, a)
    ensures Matches("%s" + g, [Str(memory)] + a) && Render("%s" + g, [Str(memory)] + a) == s + Render(g, a)
    ensures s < memory && '\0' !in s && memory[|s|] == '\0'
  {
    hide Render, Matches;
    assert "%s" == ['%', 's'];
    DirectivePrints('s', g, Str(memory), a);
    s := CStr(memory);
    CStrIsPrefix(memory);
  }

  /** `%c` prints the low byte of its argument as one character. */
  lemma PrintsChar(n: int, g: string, a: seq<Arg>) returns (s: string)
    requires INT_MIN <= n <= INT_MAX && Matches(g, a)
    ensures Matches("%c" + g, [Num(n)] + a) && Render("%c" + g, [Num(n)] + a) == s + Render(g, a)
    ensures |s| == 1 && 0 <= s[0] as int < 256 && (n - s[0] as int) % 256 == 0
  {
    hide Render, Matches;
    assert "%c" == ['%', 'c'];
    DirectivePrints('c', g, Num(n), a);
    s := [(n % 256) as char];
  }

  /** There is one way only to write a number: what a directive prints is determined by the laws above. */
  lemma OneDecimalOneHex(s: string, u: string, n: int)
    ensures IsDecimal(s, n) && IsDecimal(u, n) ==> s == u
    ensures IsHex(s, n) && IsHex(u, n) ==> s == u
  {
    hide Value, Digits;
    if IsDecimal(s, n) && IsDecimal(u, n) {
      DigitsUnique(if n < 0 then s[1..] else s, 10);
      DigitsUnique(if n < 0 then u[1..] else u, 10);
      assert n < 0 ==> s == [s[0]] + s[1..] && u == [u[0]] + u[1..];
    }
    if IsHex(s, n) && IsHex(u, n) {
      DigitsUnique(s, 16);
      DigitsUnique(u, 16);
    }
  }
}
