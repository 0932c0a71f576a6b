/** The lexical grammar of JSON, given by what can be written: numbers as in section 6 of RFC 8259,
    strings as in section 7, literal names and white space as in sections 2 and 3. The scanner's
    tests accept exactly that. */
module JsonLexemes {
  import opened Options
  import opened Text
  import opened LockfileScanner

  // ---- White space -------------------------------------------------------------------------------

  lemma GapsMean(c: char)
    ensures IsGapChar(c) <==> c as int in {0x20, 0x9, 0xA, 0xD}
  {
  }

  // ---- Numbers -----------------------------------------------------------------------------------

  datatype Exponent = Exponent(mark: char, sign: string, digits: string)

  datatype Number = Number(minus: bool, whole: string, fraction: Option<string>, exponent: Option<Exponent>)

  predicate AreDigits(s: string) {
    s != "" && forall i :: 0 <= i < |s| ==> '0' <= s[i] <= '9'
  }

  /** The whole part has no superfluous zero, and all parts have digits. */
  predicate NumberOk(n: Number) {
    && AreDigits(n.whole) && (n.whole[0] == '0' ==> n.whole == "0")
    && (n.fraction.Some? ==> AreDigits(n.fraction.value))
    && (n.exponent.Some? ==>
          && n.exponent.value.mark in {'e', 'E'} && n.exponent.value.sign in {"", "+", "-"}
          && AreDigits(n.exponent.value.digits))
  }

  function ExponentText(e: Option<Exponent>): string {
    match e
    case None => ""
    case Some(x) => [x.mark] + (x.sign + x.digits)
  }

  function FractionText(f: Option<string>, rest: string): string {
    match f
    case None => rest
    case Some(digits) => "." + (digits + rest)
  }

  function NumberText(n: Number): string {
    (if n.minus then "-" else "") + (n.whole + FractionText(n.fraction, ExponentText(n.exponent)))
  }

  lemma {:induction false} DigitsSkipped(digits: string, rest: string)
    requires (forall i :: 0 <= i < |digits| ==> IsDigit(digits[i])) && (rest == "" || !IsDigit(rest[0]))
    ensures SkipDigits(digits + rest) == rest
  {
    if digits == "" {
      assert digits + rest == rest;
    } else {
      assert (digits + rest)[1..] == digits[1..] + rest;
      DigitsSkipped(digits[1..], rest);
    }
  }

  /** What is skipped, and that it ends where the digits end. */
  lemma {:induction false} SkippedDigits(s: string) returns (digits: string)
    ensures digits + SkipDigits(s) == s && forall i :: 0 <= i < |digits| ==> IsDigit(digits[i])
    ensures SkipDigits(s) == "" || !IsDigit(SkipDigits(s)[0])
    ensures s != "" && IsDigit(s[0]) ==> digits != "" && digits[0] == s[0]
  {
    if s != "" && IsDigit(s[0]) {
      var rest := SkippedDigits(s[1..]);
      digits := [s[0]] + rest;
      assert digits + SkipDigits(s) == [s[0]] + s[1..];
    } else {
      digits := "";
    }
  }

  lemma ExponentReads(e: Option<Exponent>)
    requires e.Some? ==> e.value.mark in {'e', 'E'} && e.value.sign in {"", "+", "-"} && AreDigits(e.value.digits)
    ensures IsExponent(ExponentText(e))
    ensures ExponentText(e) == "" || (!IsDigit(ExponentText(e)[0]) && ExponentText(e)[0] != '.')
  {
    if e.Some? {
      var x := e.value;
      var s, t := ExponentText(e), x.sign + x.digits;
      assert s[1..] == t;
      DigitsSkipped(x.digits, "");
      assert x.digits + "" == x.digits;
      if x.sign == "" {
        assert t == x.digits;
      } else {
        assert t[1..] == x.digits && s[2..] == t[1..] && s[1] == t[0];
      }
    }
  }

  lemma FractionReads(f: Option<string>, e: Option<Exponent>)
    requires f.Some? ==> AreDigits(f.value)
    requires e.Some? ==> e.value.mark in {'e', 'E'} && e.value.sign in {"", "+", "-"} && AreDigits(e.value.digits)
    ensures var s := FractionText(f, ExponentText(e)); IsFraction(s) && (s == "" || !IsDigit(s[0]))
  {
    ExponentReads(e);
    if f.Some? {
      var s := FractionText(f, ExponentText(e));
      assert s[1..] == f.value + ExponentText(e);
      DigitsSkipped(f.value, ExponentText(e));
    }
  }

  lemma NumberReads(n: Number)
    requires NumberOk(n)
    ensures IsNumber(NumberText(n))
  {
    var rest := FractionText(n.fraction, ExponentText(n.exponent));
    FractionReads(n.fraction, n.exponent);
    var s, t := NumberText(n), n.whole + rest;
    if n.minus { assert s[1..] == t; } else { assert s == t; }
    assert t[0] == n.whole[0];
    if t[0] == '0' {
      assert t[1..] == rest;
    } else {
      DigitsSkipped(n.whole, rest);
    }
  }

  lemma ExponentIsWritten(s: string) returns (e: Option<Exponent>)
    requires IsExponent(s)
    ensures ExponentText(e) == s
    ensures e.Some? ==> e.value.mark in {'e', 'E'} && e.value.sign in {"", "+", "-"} && AreDigits(e.value.digits)
  {
    if s == "" { return None; }
    var signed := |s| > 1 && (s[1] == '+' || s[1] == '-');
    var t := if signed then s[2..] else s[1..];
    var digits := SkippedDigits(t);
    assert digits + "" == digits;
    e := Some(Exponent(s[0], if signed then [s[1]] else "", digits));
    assert s == [s[0]] + s[1..];
    if signed { assert s[1..] == [s[1]] + s[2..]; } else { assert "" + digits == digits; }
  }

  lemma FractionIsWritten(s: string) returns (f: Option<string>, e: Option<Exponent>)
    requires IsFraction(s)
    ensures FractionText(f, ExponentText(e)) == s && (f.Some? ==> AreDigits(f.value))
    ensures e.Some? ==> e.value.mark in {'e', 'E'} && e.value.sign in {"", "+", "-"} && AreDigits(e.value.digits)
  {
    if s != "" && s[0] == '.' {
      var digits := SkippedDigits(s[1..]);
      e := ExponentIsWritten(SkipDigits(s[1..]));
      f := Some(digits);
      assert s == "." + s[1..];
    } else {
      f := None;
      e := ExponentIsWritten(s);
    }
  }

  lemma NumberIsWritten(s: string) returns (n: Number)
    requires IsNumber(s)
    ensures NumberOk(n) && NumberText(n) == s
  {
    var minus := s[0] == '-';
    var t := if minus then s[1..] else s;
    var whole, rest;
    if t[0] == '0' {
      whole, rest := "0", t[1..];
      assert whole + rest == t;
    } else {
      whole := SkippedDigits(t);
      rest := SkipDigits(t);
    }
    var f, e := FractionIsWritten(rest);
    n := Number(minus, whole, f, e);
    assert minus ==> s == "-" + s[1..];
    assert !minus ==> "" + t == t;
  }

  /** The scanner takes a text for a number exactly if it is one's text. */
  lemma {:induction false} NumbersExactly(s: string)
    ensures IsNumber(s) <==> exists n :: NumberOk(n) && NumberText(n) == s
  {
    if IsNumber(s) {
      var n := NumberIsWritten(s);
      assert NumberOk(n) && NumberText(n) == s;
    }
    forall n | NumberOk(n) && NumberText(n) == s ensures IsNumber(s) { NumberReads(n); }
  }

  lemma ScalarCharsOf(n: Number)
    requires NumberOk(n)
    ensures forall i :: 0 <= i < |NumberText(n)| ==> IsScalarChar(NumberText(n)[i])
  {
    var e := ExponentText(n.exponent);
    var f := FractionText(n.fraction, e);
    assert forall i :: 0 <= i < |e| ==> IsScalarChar(e[i]);
    assert forall i :: 0 <= i < |f| ==> IsScalarChar(f[i]);
  }

  /** Besides numbers there are the three literal names. */
  lemma {:induction false} ScalarsExactly(s: string)
    ensures IsScalar(s) <==> s in {"true", "false", "null"} || exists n :: NumberOk(n) && NumberText(n) == s
  {
    NumbersExactly(s);
    if IsNumber(s) {
      var n := NumberIsWritten(s);
      ScalarCharsOf(n);
    }
  }

  // ---- Strings -----------------------------------------------------------------------------------

  const HEX := "0123456789abcdefABCDEF"

  /** A character that stands for itself, an escape, or a Unicode escape with its four digits. */
  datatype Piece = Itself(c: char) | Escape(c: char) | Unicode(digits: string)

  predicate PieceOk(p: Piece) {
    match p
    case Itself(c) => c >= ' ' && c != '"' && c != '\\'
    case Escape(c) => c in {'"', '\\', '/', 'b', 'f', 'n', 'r', 't'}
    case Unicode(digits) => |digits| == 4 && forall i :: 0 <= i < 4 ==> digits[i] in HEX
  }

  function PieceText(p: Piece): string {
    match p
    case Itself(c) => [c]
    case Escape(c) => ['\\', c]
    case Unicode(digits) => "\\u" + digits
  }

  predicate PiecesOk(ps: seq<Piece>) {
    forall i :: 0 <= i < |ps| ==> PieceOk(ps[i])
  }

  function BodyText(ps: seq<Piece>): string {
    if ps == [] then "" else PieceText(ps[0]) + BodyText(ps[1..])
  }

  lemma HexMeans(c: char)
    ensures IsHex(c) <==> c in HEX
  {
    if c in HEX { var i :| 0 <= i < |HEX| && HEX[i] == c; }
    if '0' <= c <= '9' {
      assert HEX[c as int - '0' as int] == c;
    } else if 'a' <= c <= 'f' {
      assert HEX[c as int - 'a' as int + 10] == c;
    } else if 'A' <= c <= 'F' {
      assert HEX[c as int - 'A' as int + 16] == c;
    }
  }

  lemma HexStandsForItself(s: string)
    requires s != "" && IsHex(s[0])
    ensures BodyChar(s) == 1 && (IsBody(s) <==> IsBody(s[1..]))
  {
  }

  lemma FourHex(s: string)
    requires |s| >= 4 && IsHex(s[0]) && IsHex(s[1]) && IsHex(s[2]) && IsHex(s[3])
    ensures IsBody(s) <==> IsBody(s[4..])
  {
    HexStandsForItself(s);
    HexStandsForItself(s[1..]);
    assert s[1..][1..] == s[2..];
    HexStandsForItself(s[2..]);
    assert s[2..][1..] == s[3..];
    HexStandsForItself(s[3..]);
    assert s[3..][1..] == s[4..];
  }

  lemma UnicodeReads(digits: string, rest: string)
    requires |digits| == 4 && (forall i :: 0 <= i < 4 ==> digits[i] in HEX) && IsBody(rest)
    ensures IsBody("\\u" + digits + rest)
  {
    var s, t := "\\u" + digits + rest, digits + rest;
    forall i | 0 <= i < 4 ensures IsHex(digits[i]) { HexMeans(digits[i]); }
    assert s[2..] == t;
    assert t[4..] == rest;
    FourHex(t);
    assert forall i :: 0 <= i < 4 ==> s[2 + i] == t[i] == digits[i];
    UnicodeIsTwo(s);
  }

  lemma UnicodeIsTwo(s: string)
    requires |s| >= 6 && s[0] == '\\' && s[1] == 'u' && IsHex(s[2]) && IsHex(s[3]) && IsHex(s[4]) && IsHex(s[5])
    ensures BodyChar(s) == 2
  {
  }

  lemma PieceReads(p: Piece, rest: string)
    requires PieceOk(p) && IsBody(rest)
    ensures IsBody(PieceText(p) + rest)
  {
    var s := PieceText(p) + rest;
    match p
    case Itself(c) => assert s[1..] == rest;
    case Escape(c) => assert s[2..] == rest;
    case Unicode(digits) => UnicodeReads(digits, rest);
  }

  lemma {:induction false} BodyReads(ps: seq<Piece>)
    requires PiecesOk(ps)
    ensures IsBody(BodyText(ps))
  {
    if ps != [] {
      BodyReads(ps[1..]);
      PieceReads(ps[0], BodyText(ps[1..]));
    }
  }

  lemma PieceIsWritten(s: string) returns (p: Piece, rest: string)
    requires IsBody(s) && s != ""
    ensures PieceOk(p) && IsBody(rest) && PieceText(p) + rest == s
  {
    if s[0] != '\\' {
      p, rest := Itself(s[0]), s[1..];
    } else if s[1] == 'u' {
      p, rest := Unicode(s[2..6]), s[6..];
      forall i | 0 <= i < 4 ensures s[2..6][i] in HEX { HexMeans(s[2 + i]); }
      FourHex(s[2..]);
      assert s[2..][4..] == s[6..];
      assert s == "\\u" + s[2..6] + s[6..];
    } else {
      p, rest := Escape(s[1]), s[2..];
      assert s == ['\\', s[1]] + s[2..];
    }
  }

  lemma {:induction false} BodyIsWritten(s: string) returns (ps: seq<Piece>)
    requires IsBody(s)
    ensures PiecesOk(ps) && BodyText(ps) == s
    decreases |s|
  {
    if s == "" { return []; }
    var p, rest := PieceIsWritten(s);
    var qs := BodyIsWritten(rest);
    ps := [p] + qs;
    assert ps[1..] == qs;
  }

  /** The scanner takes a text for a string's body exactly if it is written in such pieces. */
  lemma {:induction false} BodiesExactly(s: string)
    ensures IsBody(s) <==> exists ps :: PiecesOk(ps) && BodyText(ps) == s
  {
    if IsBody(s) {
      var ps := BodyIsWritten(s);
      assert PiecesOk(ps) && BodyText(ps) == s;
    }
    forall ps | PiecesOk(ps) && BodyText(ps) == s ensures IsBody(s) { BodyReads(ps); }
  }
}
