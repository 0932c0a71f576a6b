/** The string operations of the backend's language that the models share. */
module Text {
  import opened Options

  /** White space and line terminators, as `trim`, `parseInt` and `\s` know them. */
  predicate IsSpace(c: char) {
    var n := c as int;
    || 0x9 <= n <= 0xD || n == 0x20 || n == 0xA0 || n == 0x1680 || 0x2000 <= n <= 0x200A || n == 0x2028 || n == 0x2029
    || n == 0x202F || n == 0x205F || n == 0x3000 || n == 0xFEFF
  }

  /** White space by code point: the controls from tab to carriage return, the space, and the separators
      and marks of the Unicode tables. */
  lemma SpacesAre(c: char)
    ensures IsSpace(c) <==> c as int in {0x9, 0xA, 0xB, 0xC, 0xD, 0x20, 0xA0, 0x1680, 0x2000, 0x2001, 0x2002, 0x2003,
                                         0x2004, 0x2005, 0x2006, 0x2007, 0x2008, 0x2009, 0x200A, 0x2028, 0x2029, 0x202F,
                                         0x205F, 0x3000, 0xFEFF}
  {
  }

  predicate IsDigit(c: char) {
    '0' <= c <= '9'
  }

  function DigitValue(c: char): nat
    requires IsDigit(c)
  {
    c as int - '0' as int
  }

  function TrimStart(s: string): string {
    if s != "" && IsSpace(s[0]) then TrimStart(s[1..]) else s
  }

  function TrimEnd(s: string): string {
    if s != "" && IsSpace(s[|s| - 1]) then TrimEnd(s[..|s| - 1]) else s
  }

  function Trim(s: string): string {
    TrimEnd(TrimStart(s))
  }

  /** The pieces between separators; an empty string has one empty piece. */
  function Split(s: string, sep: char): (parts: seq<string>)
    ensures parts != []
  {
    if s == "" then [""]
    else
      var rest := Split(s[1..], sep);
      if s[0] == sep then [""] + rest else [[s[0]] + rest[0]] + rest[1..]
  }

  function LeadingDigits(s: string): nat {
    if s != "" && IsDigit(s[0]) then 1 + LeadingDigits(s[1..]) else 0
  }

  function Digits(s: string): (n: nat)
    requires forall i :: 0 <= i < |s| ==> IsDigit(s[i])
  {
    if s == "" then 0 else 10 * Digits(s[..|s| - 1]) + DigitValue(s[|s| - 1])
  }

  lemma {:induction false} LeadingDigitsAre(s: string)
    ensures LeadingDigits(s) <= |s|
    ensures forall i :: 0 <= i < LeadingDigits(s) ==> IsDigit(s[i])
    ensures LeadingDigits(s) < |s| ==> !IsDigit(s[LeadingDigits(s)])
  {
    if s != "" && IsDigit(s[0]) { LeadingDigitsAre(s[1..]); }
  }

  function LeadingNumber(s: string): Option<nat> {
    var n := LeadingDigits(s);
    LeadingDigitsAre(s);
    if n == 0 then None else Some(Digits(s[..n]))
  }

  /** `parseInt` in base ten: leading white space, a sign, the digits that follow. */
  function ParseInt(s: string): Option<int> {
    var t := TrimStart(s);
    var negative := t != "" && t[0] == '-';
    match LeadingNumber(if t != "" && (t[0] == '-' || t[0] == '+') then t[1..] else t)
    case None => None
    case Some(n) => Some(if negative then 0 - n else n)
  }

  function Decimal(n: nat): (s: string)
    ensures s != "" && forall i :: 0 <= i < |s| ==> IsDigit(s[i])
  {
    var last := [('0' as int + n % 10) as char];
    if n < 10 then last else Decimal(n / 10) + last
  }

  lemma {:induction false} DecimalValue(n: nat)
    ensures Digits(Decimal(n)) == n
  {
    var s := Decimal(n);
    var last := ('0' as int + n % 10) as char;
    assert s[|s| - 1] == last && DigitValue(last) == n % 10;
    if n < 10 {
      assert s[..|s| - 1] == "";
    } else {
      DecimalValue(n / 10);
      assert s[..|s| - 1] == Decimal(n / 10);
    }
  }

  lemma {:induction false} AllDigitsLead(s: string)
    requires forall i :: 0 <= i < |s| ==> IsDigit(s[i])
    ensures LeadingDigits(s) == |s|
  {
    if s != "" { AllDigitsLead(s[1..]); }
  }

  /** Printing a number and parsing it gives the number back. */
  lemma ParseDecimal(n: nat)
    ensures ParseInt(Decimal(n)) == Some(n)
  {
    var s := Decimal(n);
    assert IsDigit(s[0]);
    AllDigitsLead(s);
    DecimalValue(n);
    assert s[..|s|] == s;
  }

  lemma {:induction false} SplitJoined(a: string, sep: char, rest: string)
    requires sep !in a
    ensures Split(a + [sep] + rest, sep) == [a] + Split(rest, sep)
  {
    var s := a + [sep] + rest;
    if a == "" {
      assert s[1..] == rest;
    } else {
      assert s[1..] == a[1..] + [sep] + rest;
      SplitJoined(a[1..], sep, rest);
      assert [a[0]] + a[1..] == a;
    }
  }

  lemma {:induction false} SplitWhole(a: string, sep: char)
    requires sep !in a
    ensures Split(a, sep) == [a]
  {
    if a != "" {
      SplitWhole(a[1..], sep);
      assert [a[0]] + a[1..] == a;
    }
  }

  predicate AllSpace(s: string) {
    forall i :: 0 <= i < |s| ==> IsSpace(s[i])
  }

  lemma {:induction false} TrimStartPast(pad: string, s: string)
    requires AllSpace(pad)
    ensures TrimStart(pad + s) == TrimStart(s)
  {
    if pad == "" {
      assert pad + s == s;
    } else {
      assert (pad + s)[1..] == pad[1..] + s;
      TrimStartPast(pad[1..], s);
    }
  }

  lemma {:induction false} TrimEndPast(s: string, pad: string)
    requires AllSpace(pad)
    ensures TrimEnd(s + pad) == TrimEnd(s)
  {
    if pad == "" {
      assert s + pad == s;
    } else {
      assert (s + pad)[..|s + pad| - 1] == s + pad[..|pad| - 1];
      TrimEndPast(s, pad[..|pad| - 1]);
    }
  }

  /** What follows a character that is no space is trimmed by itself. */
  lemma {:induction false} TrimEndInside(a: string, b: string)
    requires b != "" && !IsSpace(b[0])
    ensures TrimEnd(b) != "" && TrimEnd(b)[0] == b[0] && TrimEnd(a + b) == a + TrimEnd(b)
  {
    var last := |b| - 1;
    assert (a + b)[|a + b| - 1] == b[last];
    if IsSpace(b[last]) {
      assert (a + b)[..|a + b| - 1] == a + b[..last];
      TrimEndInside(a, b[..last]);
    }
  }

  lemma {:induction false} TrimEndTwice(s: string)
    ensures TrimEnd(TrimEnd(s)) == TrimEnd(s)
  {
    if s != "" && IsSpace(s[|s| - 1]) { TrimEndTwice(s[..|s| - 1]); }
  }

  lemma {:induction false} TrimStartIsNoSpace(s: string)
    ensures TrimStart(s) == "" || !IsSpace(TrimStart(s)[0])
  {
    if s != "" && IsSpace(s[0]) { TrimStartIsNoSpace(s[1..]); }
  }

  lemma TrimTwice(s: string)
    ensures Trim(Trim(s)) == Trim(s)
  {
    var t := TrimStart(s);
    TrimStartIsNoSpace(s);
    if t != "" { TrimEndInside("", t); }
    TrimEndTwice(t);
  }

  lemma {:induction false} SplitAppends(a: string, sep: char, b: string)
    ensures Split(a + [sep] + b, sep) == Split(a, sep) + Split(b, sep)
  {
    var s := a + [sep] + b;
    if a == "" {
      assert s[1..] == b;
    } else {
      assert s[1..] == a[1..] + [sep] + b;
      SplitAppends(a[1..], sep, b);
    }
  }

  lemma {:induction false} DigitsLead(s: string, rest: string)
    requires (forall i :: 0 <= i < |s| ==> IsDigit(s[i])) && (rest == "" || !IsDigit(rest[0]))
    ensures LeadingDigits(s + rest) == |s|
  {
    if s == "" {
      assert s + rest == rest;
    } else {
      assert (s + rest)[1..] == s[1..] + rest;
      DigitsLead(s[1..], rest);
    }
  }

  lemma NumberLeads(n: nat, rest: string)
    requires rest == "" || !IsDigit(rest[0])
    ensures LeadingNumber(Decimal(n) + rest) == Some(n)
  {
    DigitsLead(Decimal(n), rest);
    DecimalValue(n);
    assert (Decimal(n) + rest)[..|Decimal(n)|] == Decimal(n);
  }

  lemma ParseIntSkips(pad: string, s: string)
    requires AllSpace(pad)
    ensures ParseInt(pad + s) == ParseInt(s)
  {
    TrimStartPast(pad, s);
  }

  /** A number after any white space and perhaps a sign is read up to what is no digit. */
  lemma {:induction false} ParseIntMeans(pad: string, sign: string, n: nat, rest: string)
    requires AllSpace(pad) && sign in ["", "+", "-"] && (rest == "" || !IsDigit(rest[0]))
    ensures ParseInt(pad + (sign + (Decimal(n) + rest))) == Some(if sign == "-" then 0 - n else n)
  {
    var s := sign + (Decimal(n) + rest);
    ParseIntSkips(pad, s);
    NumberLeads(n, rest);
    if sign == "" {
      assert s == Decimal(n) + rest && s[0] == Decimal(n)[0];
    } else {
      assert s[1..] == Decimal(n) + rest && s[0] == sign[0];
    }
  }

  /** Without a digit after white space and sign there is no number. */
  lemma ParseIntFails(pad: string, sign: string, rest: string)
    requires AllSpace(pad) && sign in ["", "+", "-"] && (rest == "" || !IsDigit(rest[0]))
    requires sign == "" && rest != "" ==> !IsSpace(rest[0]) && rest[0] != '+' && rest[0] != '-'
    ensures ParseInt(pad + (sign + rest)).None?
  {
    ParseIntSkips(pad, sign + rest);
    if sign == "" {
      assert sign + rest == rest;
    } else {
      assert (sign + rest)[1..] == rest;
    }
  }
}
