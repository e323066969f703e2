/** number() of kernel/vsprintf.cc, and a reader that gets the number back from what it prints. */
module Numbers {
  import opened Basics

  datatype Flags = Flags(zeropad: bool, sign: bool, plus: bool, space: bool, left: bool, special: bool, small: bool)

  function DigitChar(d: nat, small: bool): (c: char)
    requires d < 36
    ensures DigitValue(c) == d && c != ' ' && c != '+' && c != '-'
  {
    if d < 10 then '0' + d as char else if small then 'a' + (d - 10) as char else 'A' + (d - 10) as char
  }

  /** 36 for what is no digit in any base. */
  function DigitValue(c: char): (d: nat)
    ensures d <= 36
  {
    if '0' <= c <= '9' then (c - '0') as nat
    else if 'a' <= c <= 'z' then (c - 'a') as nat + 10
    else if 'A' <= c <= 'Z' then (c - 'A') as nat + 10
    else 36
  }

  // ---- reading -------------------------------------------------------------------------------------

  predicate AllDigits(s: string, base: nat) {
    forall i | 0 <= i < |s| :: DigitValue(s[i]) < base
  }

  function Value(s: string, base: nat): nat {
    if s == [] then 0 else Value(s[..|s| - 1], base) * base + DigitValue(s[|s| - 1])
  }

  function SkipSpaces(s: string): string {
    if s != [] && s[0] == ' ' then SkipSpaces(s[1..]) else s
  }

  /** The digits s begins with. */
  function Span(s: string, base: nat): string {
    if s != [] && DigitValue(s[0]) < base then [s[0]] + Span(s[1..], base) else []
  }

  function Unsigned(t: string): string {
    if t != [] && (t[0] == '-' || t[0] == '+') then t[1..] else t
  }

  function ReadDigits(u: string, base: nat, special: bool): nat {
    Value(Span(if special && base == 16 && |u| >= 2 then u[2..] else u, base), base)
  }

  /** Spaces, a sign, the prefix if one is announced, digits. */
  function Read(s: string, base: nat, special: bool): int {
    var t := SkipSpaces(s);
    var value: int := ReadDigits(Unsigned(t), base, special);
    if t != [] && t[0] == '-' then -value else value
  }

  // ---- the numeral ---------------------------------------------------------------------------------

  /** The digits of n, none for 0. */
  function Numeral(n: nat, base: nat, small: bool): (s: string)
    requires 2 <= base <= 36
    ensures AllDigits(s, base)
  {
    if n == 0 then [] else
      assert n / base < n by { Smaller(n, base); }
      Numeral(n / base, base, small) + [DigitChar(n % base, small)]
  }

  lemma DivMod(n: nat, base: nat)
    requires base > 0
    ensures n == (n / base) * base + n % base && n / base >= 0 && n % base < base
  {
  }

  lemma Smaller(n: nat, base: nat)
    requires n > 0 && base >= 2
    ensures n / base <= n / 2 < n
  {
    var q := n / base;
    DivMod(n, base);
    assert (base - 2) * q >= 0;
    assert base * q == 2 * q + (base - 2) * q;
  }

  lemma ValueSnoc(s: string, c: char, base: nat)
    ensures Value(s + [c], base) == Value(s, base) * base + DigitValue(c)
  {
    assert (s + [c])[..|s|] == s;
  }

  lemma {:induction false} NumeralValue(n: nat, base: nat, small: bool)
    requires 2 <= base <= 36
    ensures Value(Numeral(n, base, small), base) == n
  {
    if n > 0 {
      Smaller(n, base);
      DivMod(n, base);
      NumeralValue(n / base, base, small);
      hide Value;
      ValueSnoc(Numeral(n / base, base, small), DigitChar(n % base, small), base);
    }
  }

  function Repeat(n: int, c: char): (s: string)
    ensures |s| == (if n > 0 then n else 0) && forall i | 0 <= i < |s| :: s[i] == c
  {
    if n <= 0 then [] else [c] + Repeat(n - 1, c)
  }

  lemma {:induction false} ZerosValue(z: int, s: string, base: nat)
    requires base > 0
    ensures Value(Repeat(z, '0') + s, base) == Value(s, base)
    decreases |s|, z
  {
    var t := Repeat(z, '0') + s;
    if s != [] {
      ZerosValue(z, s[..|s| - 1], base);
      assert t[..|t| - 1] == Repeat(z, '0') + s[..|s| - 1];
    } else if z > 0 {
      ZerosValue(z - 1, [], base);
      assert t[..|t| - 1] == Repeat(z - 1, '0') + [];
      assert t[|t| - 1] == '0';
    }
  }

  lemma {:induction false} SpanAll(s: string, tail: string, base: nat)
    requires AllDigits(s, base) && (tail == [] || DigitValue(tail[0]) >= base)
    ensures Span(s + tail, base) == s
  {
    if s == [] {
      assert s + tail == tail;
    } else {
      SpanAll(s[1..], tail, base);
      assert (s + tail)[1..] == s[1..] + tail;
    }
  }

  lemma {:induction false} SkipAll(n: int, s: string)
    ensures SkipSpaces(Repeat(n, ' ') + s) == SkipSpaces(s)
    decreases n
  {
    if n <= 0 {
      assert Repeat(n, ' ') + s == s;
    } else {
      SkipAll(n - 1, s);
      assert (Repeat(n, ' ') + s)[1..] == Repeat(n - 1, ' ') + s;
    }
  }

  // ---- what number() prints ------------------------------------------------------------------------

  /** What an int is worth: itself with SIGN, else its 32 bits taken as unsigned. */
  function Meant(num: int, f: Flags): int {
    if f.sign || num >= 0 then num else num + 0x1_0000_0000
  }

  function Magnitude(num: int, f: Flags): nat {
    var m := Meant(num, f); if m < 0 then -m else m
  }

  function SignOf(num: int, f: Flags): string {
    if f.sign && num < 0 then "-" else if f.plus then "+" else if f.space then " " else ""
  }

  function PrefixOf(base: nat, f: Flags): string {
    if !f.special then "" else if base == 8 then "0" else if base == 16 then (if f.small then "0x" else "0X") else ""
  }

  function DigitsOf(num: int, base: nat, f: Flags): (s: string)
    requires 2 <= base <= 36
    ensures s != [] && AllDigits(s, base)
  {
    var m := Magnitude(num, f);
    if m == 0 then "0" else Numeral(m, base, f.small)
  }

  function Max(a: int, b: int): int { if a > b then a else b }

  /** sign, prefix, zeros and digits, padded to the field on the side the flags ask for. */
  function Printed(num: int, base: nat, size: int, precision: int, f: Flags): (s: string)
    requires 2 <= base <= 36
  {
    var digits := DigitsOf(num, base, f);
    var sign, prefix, zeros := SignOf(num, f), PrefixOf(base, f), Repeat(precision - |digits|, '0');
    Arranged(sign, prefix, zeros, digits, size - |sign| - |prefix| - |zeros| - |digits|, f)
  }

  function Arranged(sign: string, prefix: string, zeros: string, digits: string, pad: int, f: Flags): (s: string)
    ensures |s| == |sign| + |prefix| + |zeros| + |digits| + Max(pad, 0)
  {
    if f.left then sign + prefix + zeros + digits + Repeat(pad, ' ')
    else if f.zeropad then sign + prefix + Repeat(pad, '0') + zeros + digits
    else Repeat(pad, ' ') + sign + prefix + zeros + digits
  }

  /** The field is as wide as asked for, or as its contents need. */
  lemma PrintedWidth(num: int, base: nat, size: int, precision: int, f: Flags)
    requires 2 <= base <= 36
    ensures |Printed(num, base, size, precision, f)|
            == Max(size, |SignOf(num, f)| + |PrefixOf(base, f)| + Max(precision, |DigitsOf(num, base, f)|))
  {
  }

  /** How many characters are needed without padding. */
  function Needed(num: int, base: nat, precision: int, f: Flags): int
    requires 2 <= base <= 36
  {
    |SignOf(num, f)| + |PrefixOf(base, f)| + Max(precision, |DigitsOf(num, base, f)|)
  }

  /** The padding: blanks behind with LEFT; else zeros between the sign and the digits with ZEROPAD; else blanks in front. */
  lemma PrintedPadding(num: int, base: nat, size: int, precision: int, f: Flags, i: nat)
    requires 2 <= base <= 36 && i < |Printed(num, base, size, precision, f)|
    ensures var s, w := Printed(num, base, size, precision, f), Needed(num, base, precision, f);
            if f.left then i >= w ==> s[i] == ' '
            else if f.zeropad then |SignOf(num, f)| + |PrefixOf(base, f)| <= i < |s| - |DigitsOf(num, base, f)| ==> s[i] == '0'
            else i < |s| - w ==> s[i] == ' '
  {
    hide SignOf, PrefixOf, DigitsOf;
  }

  /** After any blanks in front comes the sign, '-' for a negative number taken as signed, else '+' with PLUS or a blank
      with SPACE, and then, with SPECIAL, the prefix of base 8 or 16. */
  lemma PrintedFront(num: int, base: nat, size: int, precision: int, f: Flags)
    requires 2 <= base <= 36
    ensures var s, w := Printed(num, base, size, precision, f), Needed(num, base, precision, f);
            var q := if f.left || f.zeropad then 0 else |s| - w;
            var signed := (f.sign && num < 0) || f.plus || f.space; var p := if signed then q + 1 else q;
            && 0 <= q && p + 2 <= |s| + (if f.special && base == 16 then 0 else 1)
            && (signed ==> s[q] == if f.sign && num < 0 then '-' else if f.plus then '+' else ' ')
            && (f.special && base == 16 ==> s[p] == '0' && s[p + 1] == if f.small then 'x' else 'X')
            && (f.special && base == 8 ==> s[p] == '0')
  {
    hide DigitsOf;
  }

  /** SMALL decides between small and capital letters, in digits and prefix. */
  lemma PrintedCase(num: int, base: nat, size: int, precision: int, f: Flags)
    requires 2 <= base <= 36
    ensures forall c | c in Printed(num, base, size, precision, f) :: if f.small then !('A' <= c <= 'Z') else !('a' <= c <= 'z')
  {
    NumeralCase(Magnitude(num, f), base, f.small);
    hide Numeral, Repeat;
  }

  lemma {:induction false} NumeralCase(n: nat, base: nat, small: bool)
    requires 2 <= base <= 36
    ensures forall c | c in Numeral(n, base, small) :: if small then !('A' <= c <= 'Z') else !('a' <= c <= 'z')
  {
    if n > 0 {
      Smaller(n, base);
      DivMod(n, base);
      NumeralCase(n / base, base, small);
    }
  }

  lemma DigitsValue(num: int, base: nat, f: Flags, z: int)
    requires 2 <= base <= 36
    ensures Value(Repeat(z, '0') + DigitsOf(num, base, f), base) == Magnitude(num, f)
    ensures AllDigits(Repeat(z, '0') + DigitsOf(num, base, f), base)
  {
    ZerosValue(z, DigitsOf(num, base, f), base);
    NumeralValue(Magnitude(num, f), base, f.small);
    assert Value("0", base) == 0 by { assert "0"[..0] == ""; }
  }

  /** Reading past the prefix, if there is one. */
  lemma PrefixRead(body: string, tail: string, base: nat, f: Flags)
    requires 2 <= base <= 36 && body != [] && AllDigits(body, base) && (tail == [] || tail[0] == ' ')
    ensures var u := PrefixOf(base, f) + (body + tail);
            && ReadDigits(u, base, f.special) == Value(body, base)
            && u != [] && DigitValue(u[0]) < 36
  {
    SpanAll(body, tail, base);
    var u := PrefixOf(base, f) + (body + tail);
    assert DigitValue(body[0]) < base;
    if f.special && base == 16 {
      assert u[2..] == body + tail;
    } else if f.special && base == 8 {
      SpanAll("0" + body, tail, base);
      assert u == "0" + body + tail;
      ZerosValue(1, body, base);
      assert Repeat(1, '0') == "0";
    } else {
      assert u == body + tail;
    }
  }

  /** What Read makes of spaces, a sign, a prefix, digits and what follows them. */
  lemma ReadNumber(pre: int, num: int, base: nat, f: Flags, z: int, tail: string)
    requires 2 <= base <= 36 && num >= -0x8000_0000 && (tail == [] || tail[0] == ' ')
    ensures var digits := Repeat(z, '0') + DigitsOf(num, base, f);
            Read(Repeat(pre, ' ') + (SignOf(num, f) + (PrefixOf(base, f) + (digits + tail))), base, f.special) == Meant(num, f)
  {
    hide Read, ReadDigits, DigitsOf, PrefixOf, Repeat, DigitValue, Value, AllDigits;
    var sign, body := SignOf(num, f), Repeat(z, '0') + DigitsOf(num, base, f);
    DigitsValue(num, base, f, z);
    PrefixRead(body, tail, base, f);
    ReadSigned(pre, sign, PrefixOf(base, f) + (body + tail), base, f.special);
  }

  lemma ReadSigned(pre: int, sign: string, u: string, base: nat, special: bool)
    requires sign in {"", " ", "+", "-"} && u != [] && DigitValue(u[0]) < 36
    ensures var value: int := ReadDigits(u, base, special);
            Read(Repeat(pre, ' ') + (sign + u), base, special) == if sign == "-" then -value else value
  {
    hide Repeat, ReadDigits, DigitValue;
    SkipAll(pre, sign + u);
    SkipSign(sign, u);
    hide SkipSpaces;
  }

  lemma SkipSign(sign: string, u: string)
    requires sign in {"", " ", "+", "-"} && u != [] && DigitValue(u[0]) < 36
    ensures SkipSpaces(sign + u) == if sign == " " then u else sign + u
    ensures u[0] != '+' && u[0] != '-'
    ensures sign == "" ==> sign + u == u
    ensures sign != "" ==> (sign + u)[1..] == u && (sign + u)[0] == sign[0]
  {
    assert sign == "" ==> sign + u == u;
    assert sign != "" ==> (sign + u)[1..] == u;
  }

  /** Spaces and zeros, told apart. */
  lemma ArrangedIs(sign: string, prefix: string, z: int, digits: string, pad: int, f: Flags)
    ensures var zeros := Repeat(z, '0');
            var n := if f.left || !f.zeropad || pad < 0 then z else pad + |zeros|;
            var pre, post := if f.left || f.zeropad then 0 else pad, if f.left then pad else 0;
            Arranged(sign, prefix, zeros, digits, pad, f)
            == Repeat(pre, ' ') + (sign + (prefix + ((Repeat(n, '0') + digits) + Repeat(post, ' '))))
  {
    var zeros := Repeat(z, '0');
    if !f.left && f.zeropad && pad >= 0 {
      RepeatCat(pad, |zeros|, '0');
      assert Repeat(|zeros|, '0') == zeros;
    }
    assert Repeat(0, ' ') == "";
    hide Repeat;
    Layout(Repeat(pad, ' '), sign, prefix, zeros, digits, Repeat(pad, ' '));
    Layout2(sign, prefix, Repeat(pad, '0'), zeros, digits);
  }

  /** However the pieces are grouped. */
  lemma Layout(pre: string, sign: string, prefix: string, zeros: string, digits: string, tail: string)
    ensures "" + (sign + (prefix + ((zeros + digits) + tail))) == sign + prefix + zeros + digits + tail
    ensures pre + (sign + (prefix + ((zeros + digits) + ""))) == pre + sign + prefix + zeros + digits
  {
  }

  lemma Layout2(sign: string, prefix: string, a: string, b: string, digits: string)
    ensures "" + (sign + (prefix + (((a + b) + digits) + ""))) == sign + prefix + a + b + digits
    ensures a == "" ==> sign + prefix + a + b + digits == "" + (sign + (prefix + ((b + digits) + "")))
  {
    assert a == "" ==> a + b == b;
  }

  /** Whatever the flags, width and precision, what is printed reads back as the number. */
  lemma ReadBack(num: int, base: nat, size: int, precision: int, f: Flags)
    requires 2 <= base <= 36 && -0x8000_0000 <= num < 0x8000_0000
    ensures Read(Printed(num, base, size, precision, f), base, f.special) == Meant(num, f)
  {
    hide Read, DigitsOf, PrefixOf, SignOf, Repeat, Arranged;
    var digits := DigitsOf(num, base, f);
    var sign, prefix, z := SignOf(num, f), PrefixOf(base, f), precision - |digits|;
    var zeros := Repeat(z, '0');
    var pad := size - |sign| - |prefix| - |zeros| - |digits|;
    ArrangedIs(sign, prefix, z, digits, pad, f);
    var n := if f.left || !f.zeropad || pad < 0 then z else pad + |zeros|;
    var pre, post := if f.left || f.zeropad then 0 else pad, if f.left then pad else 0;
    ReadNumber(pre, num, base, f, n, Repeat(post, ' '));
  }

  lemma {:induction false} RepeatCat(a: nat, b: nat, c: char)
    ensures Repeat(a, c) + Repeat(b, c) == Repeat(a + b, c)
  {
    if a > 0 {
      RepeatCat(a - 1, b, c);
    }
  }

  // ---- number() ------------------------------------------------------------------------------------

  function Pow2(n: nat): nat { if n == 0 then 1 else 2 * Pow2(n - 1) }

  function Reversed(s: string): (r: string)
    ensures |r| == |s|
  {
    if s == [] then [] else [s[|s| - 1]] + Reversed(s[..|s| - 1])
  }

  /** number: None is the null pointer for an impossible base.  The 32 bits of num are divided as unsigned; tmp has
      room for 36 digits. */
  method Number(num: int, base: int, size: int, precision: int, f: Flags) returns (r: Option<string>)
    requires -0x8000_0000 <= num < 0x8000_0000
    ensures r == if 2 <= base <= 36 then Some(Printed(num, base, size, precision, f)) else None
  {
    hide Repeat, Arranged, DigitsOf, Numeral, Reversed, AllDigits;
    if base < 2 || base > 36 { return None; }
    var left := size;
    var sign: string;
    var n: nat;
    if f.sign && num < 0 {
      sign := "-";
      n := -num;
    } else {
      sign := if f.plus then "+" else if f.space then " " else "";
      n := if num < 0 then num + 0x1_0000_0000 else num;
    }
    if sign != "" { left := left - 1; }
    if f.special {
      if base == 16 { left := left - 2; } else if base == 8 { left := left - 1; }
    }
    var tmp := MakeDigits(n, base, f.small);
    DigitsAre(num, base, f, n, tmp);
    var i, width := |tmp|, precision;
    if i > width { width := i; }
    left := left - width;
    var str := Assemble(sign, base, width - i, tmp, left, f);
    NoZeros(width - i, precision - i);
    r := Some(str);
  }

  lemma DigitsAre(num: int, base: nat, f: Flags, n: nat, tmp: string)
    requires 2 <= base <= 36 && n == Magnitude(num, f)
    requires Reversed(tmp) == if n == 0 then "0" else Numeral(n, base, f.small)
    ensures Reversed(tmp) == DigitsOf(num, base, f) && |DigitsOf(num, base, f)| == |tmp|
  {
  }

  lemma NoZeros(a: int, b: int)
    requires a == Max(b, 0)
    ensures Repeat(a, '0') == Repeat(b, '0') && |Repeat(a, '0')| == a
  {
  }

  /** The printing half of number. */
  method Assemble(sign: string, base: nat, zeros: int, tmp: string, pad: int, f: Flags) returns (str: string)
    ensures str == Arranged(sign, PrefixOf(base, f), Repeat(zeros, '0'), Reversed(tmp), pad, f)
  {
    hide Repeat, Reversed;
    var zeropad := f.zeropad && !f.left;
    var c := if zeropad then '0' else ' ';
    var left := pad;
    str := "";
    if !zeropad && !f.left {
      str := Fill(str, left, ' ');
      left := -1;
    }
    str := str + sign;
    if f.special {
      if base == 8 {
        str := str + "0";
      } else if base == 16 {
        str := str + "0";
        str := str + [DigitChar(33, f.small)];
      }
    }
    ghost var head := if f.left || f.zeropad then "" else Repeat(pad, ' ');
    NoRepeat();
    assert str == head + sign + PrefixOf(base, f);
    if !f.left {
      str := Fill(str, left, c);
      left := -1;
    }
    str := Fill(str, zeros, '0');
    str := CopyBack(str, tmp);
    str := Fill(str, left, ' ');
  }

  lemma NoRepeat()
    ensures forall c :: Repeat(-1, c) == ""
    ensures forall s: string :: s + "" == s && "" + s == s
  {
  }

  lemma NumeralEnds(base: nat, small: bool)
    requires 2 <= base <= 36
    ensures Numeral(0, base, small) == "" && Reversed("") == "" && Reversed("0") == "0"
  {
  }

  lemma OneMore(n: nat, base: nat, small: bool, rev: string)
    requires 2 <= base <= 36 && n > 0
    ensures Numeral(n, base, small) + rev == Numeral(n / base, base, small) + ([DigitChar(n % base, small)] + rev)
  {
    Smaller(n, base);
  }

  lemma HalfBound(n: nat, base: nat, k: nat)
    requires 0 < n < Pow2(k) && base >= 2
    ensures k > 0 && n / base < Pow2(k - 1) && n / base < n
  {
    Smaller(n, base);
  }

  /** The division loop: tmp holds the digits, the last first, and never more than 32. */
  method MakeDigits(n0: nat, base: nat, small: bool) returns (tmp: string)
    requires 2 <= base <= 36 && n0 < 0x1_0000_0000
    ensures Reversed(tmp) == (if n0 == 0 then "0" else Numeral(n0, base, small)) && |tmp| <= 36
  {
    hide Pow2, DigitChar, DigitValue, Numeral, AllDigits;
    tmp := "";
    if n0 == 0 { return "0"; }
    var n: nat := n0;
    PowerOfTwo();
    NumeralEnds(base, small);
    assert Numeral(n, base, small) + "" == Numeral(n, base, small);
    while n != 0
      invariant |tmp| <= 32 && n < Pow2(32 - |tmp|)
      invariant Numeral(n, base, small) + Reversed(tmp) == Numeral(n0, base, small)
      decreases n
    {
      HalfBound(n, base, 32 - |tmp|);
      OneMore(n, base, small, Reversed(tmp));
      var d := DigitChar(n % base, small);
      assert (tmp + [d])[..|tmp|] == tmp;
      tmp := tmp + [d];
      n := n / base;
    }
    assert "" + Reversed(tmp) == Reversed(tmp);
  }

  lemma PowerOfTwo()
    ensures Pow2(32) == 0x1_0000_0000
  {
    assert Pow2(8) == 256;
    assert Pow2(16) == 65536;
    assert Pow2(24) == 16777216;
  }

  /** while (n-- > 0) *str++ = c; */
  method Fill(str0: string, n: int, c: char) returns (str: string)
    ensures str == str0 + Repeat(n, c)
  {
    str := str0;
    var left := n;
    while left > 0
      invariant left <= n || left <= 0
      invariant str + Repeat(left, c) == str0 + Repeat(n, c)
    {
      assert str + ([c] + Repeat(left - 1, c)) == str + [c] + Repeat(left - 1, c);
      str := str + [c];
      left := left - 1;
    }
    assert str + [] == str;
  }

  /** while (i-- > 0) *str++ = tmp[i]; */
  method CopyBack(str0: string, tmp: string) returns (str: string)
    ensures str == str0 + Reversed(tmp)
  {
    str := str0;
    var i := |tmp|;
    assert tmp[..i] == tmp;
    while i > 0
      invariant 0 <= i <= |tmp| && str + Reversed(tmp[..i]) == str0 + Reversed(tmp)
    {
      i := i - 1;
      assert tmp[..i + 1][..i] == tmp[..i];
      assert str + ([tmp[i]] + Reversed(tmp[..i])) == str + [tmp[i]] + Reversed(tmp[..i]);
      str := str + [tmp[i]];
    }
    assert str + [] == str;
  }
}
