/** Bun lockfiles are JSON with trailing commas. The scanner drops the trailing commas, and only
    them, so that a JSON parser reads the value that was written. */
module LockfileScanner {
  import opened Options
  import opened Text

  // ---- The scanner ------------------------------------------------------------------------------

  /** What comes next, white space aside, closes an object or an array. */
  predicate NextCloses(s: string) {
    s != "" && (if IsSpace(s[0]) then NextCloses(s[1..]) else s[0] == '}' || s[0] == ']')
  }

  function StripOutside(s: string): string
    decreases |s|
  {
    if s == "" then ""
    else if s[0] == '"' then "\"" + StripInside(s[1..], false)
    else if s[0] == ',' && NextCloses(s[1..]) then StripOutside(s[1..])
    else [s[0]] + StripOutside(s[1..])
  }

  function StripInside(s: string, escaped: bool): string
    decreases |s|
  {
    if s == "" then ""
    else
      [s[0]] + if escaped then StripInside(s[1..], false)
               else if s[0] == '\\' then StripInside(s[1..], true)
               else if s[0] == '"' then StripOutside(s[1..])
               else StripInside(s[1..], false)
  }

  function StripFrom(s: string, inString: bool, escaped: bool): string {
    if inString then StripInside(s, escaped) else StripOutside(s)
  }

  lemma InsideChar(s: string, escaped: bool)
    requires s != ""
    ensures StripInside(s, escaped) == [s[0]] + StripFrom(s[1..], escaped || s[0] != '"', !escaped && s[0] == '\\')
  {
  }

  lemma OutsideChar(s: string)
    requires s != ""
    ensures StripOutside(s) ==
            if s[0] == ',' && NextCloses(s[1..]) then StripOutside(s[1..])
            else [s[0]] + StripFrom(s[1..], s[0] == '"', false)
  {
  }

  lemma Emitted(done: string, c: char, rest: string)
    ensures done + ([c] + rest) == done + [c] + rest
  {
  }

  /** The look-ahead over white space from a comma. */
  method LookAhead(raw: string, index: nat) returns (closes: bool)
    requires index <= |raw|
    ensures closes == NextCloses(raw[index..])
  {
    var next := index;
    while next < |raw| && IsSpace(raw[next])
      invariant index <= next <= |raw|
      invariant NextCloses(raw[next..]) <==> NextCloses(raw[index..])
    {
      assert raw[next..][1..] == raw[next + 1..];
      next := next + 1;
    }
    closes := next < |raw| && (raw[next] == '}' || raw[next] == ']');
  }

  /** The index loop over the characters. */
  method StripTrailingCommas(raw: string) returns (stripped: string)
    ensures stripped == StripOutside(raw)
  {
    var inString, escaped := false, false;
    stripped := "";
    var index := 0;
    assert raw[0..] == raw;
    while index < |raw|
      invariant 0 <= index <= |raw| && (escaped ==> inString)
      invariant stripped + StripFrom(raw[index..], inString, escaped) == StripOutside(raw)
    {
      var character := raw[index];
      assert raw[index..][1..] == raw[index + 1..];
      if inString {
        InsideChar(raw[index..], escaped);
        inString, escaped := escaped || character != '"', !escaped && character == '\\';
        Emitted(stripped, character, StripFrom(raw[index + 1..], inString, escaped));
        stripped := stripped + [character];
      } else {
        OutsideChar(raw[index..]);
        var drop := false;
        if character == ',' { drop := LookAhead(raw, index + 1); }
        if !drop {
          inString := character == '"';
          Emitted(stripped, character, StripFrom(raw[index + 1..], inString, escaped));
          stripped := stripped + [character];
        }
      }
      index := index + 1;
    }
  }

  // ---- JSON text with optional trailing commas, sections 4, 5 and 7 of RFC 8259 ------------------------

  /** A value as written: every gap and every optional comma is part of it. */
  datatype Doc =
    | Scalar(text: string)
    | Quoted(body: string)
    | Array(items: Items, comma: bool, space: string)
    | Object(items: Items, comma: bool, space: string)

  /** The items of an array, or with a key those of an object. */
  datatype Items = End | Item(before: string, key: Option<Name>, doc: Doc, after: string, rest: Items)

  /** A member's name and the gaps around its colon. */
  datatype Name = Name(body: string, gap: string, gap2: string)

  predicate IsScalarChar(c: char) {
    'a' <= c <= 'z' || 'A' <= c <= 'Z' || '0' <= c <= '9' || c == '-' || c == '+' || c == '.'
  }

  /** JSON's white space is a part of what the scanner skips. */
  predicate IsGapChar(c: char) {
    c == ' ' || c == '\t' || c == '\n' || c == '\r'
  }

  predicate IsGap(s: string) {
    forall i :: 0 <= i < |s| ==> IsGapChar(s[i])
  }

  predicate IsHex(c: char) {
    '0' <= c <= '9' || 'a' <= c <= 'f' || 'A' <= c <= 'F'
  }

  /** The length of the first character of a string body, an escape counting as one (and the
      digits of a Unicode escape as characters that follow); zero if malformed. */
  function BodyChar(s: string): (n: nat)
    ensures n <= |s| && n <= 2
  {
    if s == "" || s[0] == '"' || s[0] < ' ' then 0
    else if s[0] != '\\' then 1
    else if |s| < 2 then 0
    else if s[1] == 'u' then
      if |s| >= 6 && IsHex(s[2]) && IsHex(s[3]) && IsHex(s[4]) && IsHex(s[5]) then 2 else 0
    else if s[1] in "\"\\/bfnrt" then 2
    else 0
  }

  predicate IsBody(s: string)
    decreases |s|
  {
    s == "" || (BodyChar(s) > 0 && IsBody(s[BodyChar(s)..]))
  }

  function SkipDigits(s: string): string {
    if s != "" && IsDigit(s[0]) then SkipDigits(s[1..]) else s
  }

  predicate IsNumber(s: string) {
    var t := if s != "" && s[0] == '-' then s[1..] else s;
    t != "" && IsDigit(t[0]) && IsFraction(if t[0] == '0' then t[1..] else SkipDigits(t))
  }

  predicate IsFraction(s: string) {
    if s != "" && s[0] == '.' then |s| > 1 && IsDigit(s[1]) && IsExponent(SkipDigits(s[1..])) else IsExponent(s)
  }

  predicate IsExponent(s: string) {
    s == ""
    || ((s[0] == 'e' || s[0] == 'E')
        && var t := if |s| > 1 && (s[1] == '+' || s[1] == '-') then s[2..] else s[1..];
          t != "" && IsDigit(t[0]) && SkipDigits(t) == "")
  }

  predicate IsScalar(s: string) {
    s != "" && (forall i :: 0 <= i < |s| ==> IsScalarChar(s[i])) &&
      (s == "true" || s == "false" || s == "null" || IsNumber(s))
  }

  predicate Ok(d: Doc) {
    match d
    case Scalar(text) => IsScalar(text)
    case Quoted(body) => IsBody(body)
    case Array(items, _, space) => ItemsOk(items, false) && IsGap(space)
    case Object(items, _, space) => ItemsOk(items, true) && IsGap(space)
  }

  predicate ItemsOk(items: Items, named: bool) {
    match items
    case End => true
    case Item(before, key, doc, after, rest) =>
      && IsGap(before) && Ok(doc) && IsGap(after) && ItemsOk(rest, named) && key.Some? == named
      && (key.Some? ==> IsBody(key.value.body) && IsGap(key.value.gap) && IsGap(key.value.gap2))
  }

  function Print(d: Doc): string {
    match d
    case Scalar(text) => text
    case Quoted(body) => "\"" + body + "\""
    case Array(items, comma, space) => "[" + PrintItems(items, comma, space + "]")
    case Object(items, comma, space) => "{" + PrintItems(items, comma, space + "}")
  }

  function PrintKey(key: Option<Name>): string {
    match key
    case None => ""
    case Some(name) => "\"" + name.body + "\"" + name.gap + ":" + name.gap2
  }

  /** The items, and the end of their container. */
  function PrintItems(items: Items, comma: bool, end: string): string {
    match items
    case End => end
    case Item(before, key, doc, after, rest) =>
      before + PrintKey(key) + Print(doc) + after + (if rest.Item? || comma then "," else "") +
        PrintItems(rest, comma, end)
  }

  /** The same text without any trailing comma. */
  function Plain(d: Doc): Doc {
    match d
    case Scalar(_) => d
    case Quoted(_) => d
    case Array(items, _, space) => Array(PlainItems(items), false, space)
    case Object(items, _, space) => Object(PlainItems(items), false, space)
  }

  function PlainItems(items: Items): Items {
    match items
    case End => End
    case Item(before, key, doc, after, rest) => Item(before, key, Plain(doc), after, PlainItems(rest))
  }

  // ---- Stripping is printing without trailing commas -----------------------------------------------------

  lemma {:induction false} StripCopies(s: string, k: string)
    requires forall i :: 0 <= i < |s| ==> s[i] != '"' && s[i] != ','
    ensures StripOutside(s + k) == s + StripOutside(k)
  {
    if s == "" {
      assert s + k == k;
    } else {
      assert (s + k)[1..] == s[1..] + k;
      StripCopies(s[1..], k);
    }
  }

  lemma Reassociate(a: string, b: string, c: string)
    ensures a + b + c == a + (b + c)
  {
  }

  lemma SplitAt(s: string, n: nat, k: string)
    requires n <= |s|
    ensures s[..n] + (s[n..] + k) == s + k
  {
  }

  /** One character of a string body, or one escape. */
  lemma StripCopiesChar(c: string, k: string)
    requires (|c| == 1 && c[0] != '"' && c[0] != '\\') || (|c| == 2 && c[0] == '\\')
    ensures StripInside(c + k, false) == c + StripInside(k, false)
  {
    InsideChar(c + k, false);
    if |c| == 1 {
      assert (c + k)[1..] == k;
    } else {
      assert (c + k)[1..] == [c[1]] + k;
      InsideChar([c[1]] + k, true);
      assert ([c[1]] + k)[1..] == k;
      Reassociate([c[0]], [c[1]], StripInside(k, false));
      assert c == [c[0]] + [c[1]];
    }
  }

  lemma {:induction false} StripCopiesBody(s: string, k: string)
    requires IsBody(s)
    ensures StripInside(s + ("\"" + k), false) == s + ("\"" + StripOutside(k))
    decreases |s|
  {
    if s == "" {
      assert s + ("\"" + k) == "\"" + k && s + ("\"" + StripOutside(k)) == "\"" + StripOutside(k);
      InsideChar("\"" + k, false);
      assert ("\"" + k)[1..] == k;
    } else {
      var n := BodyChar(s);
      StripCopiesBody(s[n..], k);
      SplitAt(s, n, "\"" + k);
      SplitAt(s, n, "\"" + StripOutside(k));
      StripCopiesChar(s[..n], s[n..] + ("\"" + k));
    }
  }

  lemma StripCopiesQuoted(body: string, k: string)
    requires IsBody(body)
    ensures StripOutside("\"" + body + "\"" + k) == "\"" + body + "\"" + StripOutside(k)
  {
    Reassociate("\"", body, "\"");
    Reassociate("\"", body + "\"", k);
    Reassociate(body, "\"", k);
    Reassociate("\"", body + "\"", StripOutside(k));
    Reassociate(body, "\"", StripOutside(k));
    var t := body + ("\"" + k);
    OutsideChar("\"" + t);
    assert ("\"" + t)[1..] == t;
    StripCopiesBody(body, k);
  }

  lemma StripCopiesKey(key: Option<Name>, k: string)
    requires key.Some? ==> IsBody(key.value.body) && IsGap(key.value.gap) && IsGap(key.value.gap2)
    ensures StripOutside(PrintKey(key) + k) == PrintKey(key) + StripOutside(k)
  {
    match key
    case None =>
      assert "" + k == k;
    case Some(name) =>
      var colon, quoted := name.gap + ":" + name.gap2, "\"" + name.body + "\"";
      assert PrintKey(key) == quoted + colon;
      StripCopiesQuoted(name.body, colon + k);
      StripCopies(colon, k);
      Reassociate(quoted, colon, k);
      Reassociate(quoted, colon, StripOutside(k));
  }

  /** A value starts with what neither closes a container nor is white space. */
  lemma DocHead(d: Doc)
    requires Ok(d)
    ensures Print(d) != "" && !IsSpace(Print(d)[0]) && Print(d)[0] != '}' && Print(d)[0] != ']' && Print(d)[0] != ','
  {
  }

  lemma {:induction false} GapBefore(gap: string, k: string)
    requires IsGap(gap)
    ensures NextCloses(gap + k) <==> NextCloses(k)
  {
    if gap == "" {
      assert gap + k == k;
    } else {
      assert (gap + k)[1..] == gap[1..] + k;
      GapBefore(gap[1..], k);
    }
  }

  lemma ItemDoesNotClose(items: Items, named: bool, comma: bool, end: string, k: string)
    requires items.Item? && ItemsOk(items, named)
    ensures !NextCloses(PrintItems(items, comma, end) + k)
  {
    var text := PrintItems(items, comma, end) + k;
    var tail := text[|items.before|..];
    assert text == items.before + tail;
    GapBefore(items.before, tail);
    DocHead(items.doc);
    assert tail[0] == (PrintKey(items.key) + Print(items.doc))[0];
  }

  lemma {:induction false} StripsDoc(d: Doc, k: string)
    requires Ok(d)
    ensures StripOutside(Print(d) + k) == Print(Plain(d)) + StripOutside(k)
    decreases d
  {
    match d
    case Scalar(text) => StripCopies(text, k);
    case Quoted(body) => StripCopiesQuoted(body, k);
    case Array(items, comma, space) =>
      StripsItems(items, false, comma, space, "]", k);
      StripCopies("[", PrintItems(items, comma, space + "]") + k);
      Reassociate("[", PrintItems(items, comma, space + "]"), k);
      Reassociate("[", PrintItems(PlainItems(items), false, space + "]"), StripOutside(k));
    case Object(items, comma, space) =>
      StripsItems(items, true, comma, space, "}", k);
      StripCopies("{", PrintItems(items, comma, space + "}") + k);
      Reassociate("{", PrintItems(items, comma, space + "}"), k);
      Reassociate("{", PrintItems(PlainItems(items), false, space + "}"), StripOutside(k));
  }

  lemma {:induction false} StripsItems(items: Items, named: bool, comma: bool, space: string, closer: string, k: string)
    requires ItemsOk(items, named) && IsGap(space) && (closer == "]" || closer == "}")
    ensures StripOutside(PrintItems(items, comma, space + closer) + k) ==
            PrintItems(PlainItems(items), false, space + closer) + StripOutside(k)
    decreases items
  {
    match items
    case End =>
      StripCopies(space + closer, k);
    case Item(before, key, doc, after, rest) =>
      var separator := if rest.Item? || comma then "," else "";
      var tail := PrintItems(rest, comma, space + closer) + k;
      StripsItems(rest, named, comma, space, closer, k);
      SeparatorIsKept(rest, named, comma, space, closer, k);
      StripCopies(after, separator + tail);
      StripsDoc(doc, after + (separator + tail));
      StripCopiesKey(key, Print(doc) + (after + (separator + tail)));
      StripCopies(before, PrintKey(key) + (Print(doc) + (after + (separator + tail))));
      SixPieces(before, PrintKey(key), Print(doc), after, separator, PrintItems(rest, comma, space + closer), k);
      SixPieces(before, PrintKey(key), Print(Plain(doc)), after, if rest.Item? then "," else "",
                PrintItems(PlainItems(rest), false, space + closer), StripOutside(k));
  }

  lemma SixPieces(a: string, b: string, c: string, d: string, e: string, f: string, k: string)
    ensures a + b + c + d + e + f + k == a + (b + (c + (d + (e + (f + k)))))
  {
  }

  /** A comma between items stays; one before the end goes. */
  lemma SeparatorIsKept(rest: Items, named: bool, comma: bool, space: string, closer: string, k: string)
    requires ItemsOk(rest, named) && IsGap(space) && (closer == "]" || closer == "}")
    ensures var tail := PrintItems(rest, comma, space + closer) + k;
      StripOutside((if rest.Item? || comma then "," else "") + tail) ==
        (if rest.Item? then "," else "") + StripOutside(tail)
  {
    var tail := PrintItems(rest, comma, space + closer) + k;
    assert ("," + tail)[1..] == tail;
    if rest.Item? {
      ItemDoesNotClose(rest, named, comma, space + closer, k);
      OutsideChar("," + tail);
    } else if comma {
      Reassociate(space, closer, k);
      GapBefore(space, closer + k);
      assert NextCloses(closer + k) && NextCloses(tail);
      OutsideChar("," + tail);
      assert "" + StripOutside(tail) == StripOutside(tail);
    } else {
      assert "" + tail == tail && "" + StripOutside(tail) == StripOutside(tail);
    }
  }

  /** For every value, written with any white space and any optional trailing commas, stripping
      yields the same text without the trailing commas. */
  lemma {:induction false} StripRemovesTrailingCommas(before: string, d: Doc, after: string)
    requires Ok(d) && IsGap(before) && IsGap(after)
    ensures StripOutside(before + Print(d) + after) == before + Print(Plain(d)) + after
  {
    Reassociate(before, Print(d), after);
    Reassociate(before, Print(Plain(d)), after);
    StripCopies(before, Print(d) + after);
    StripsDoc(d, after);
    StripCopies(after, "");
    assert after + "" == after;
  }

  /** Plain JSON stays as it is. */
  lemma {:induction false} PlainJsonIsUnchanged(before: string, d: Doc, after: string)
    requires Ok(d) && d == Plain(d) && IsGap(before) && IsGap(after)
    ensures StripOutside(before + Print(d) + after) == before + Print(d) + after
  {
    StripRemovesTrailingCommas(before, d, after);
  }

  // ---- A JSON parser ---------------------------------------------------------------------------------

  datatype Value = ScalarValue(text: string) | StringValue(body: string) | Container(named: bool, items: seq<Member>)

  datatype Member = Member(key: Option<string>, value: Value)

  datatype Parsed<T> = Fail | Done(value: T, rest: string)

  function SkipGap(s: string): (t: string)
    ensures |t| <= |s|
  {
    if s != "" && IsGapChar(s[0]) then SkipGap(s[1..]) else s
  }

  function ScalarLength(s: string): (n: nat)
    ensures n <= |s|
  {
    if s != "" && IsScalarChar(s[0]) then 1 + ScalarLength(s[1..]) else 0
  }

  function BodyLength(s: string): (n: nat)
    ensures n <= |s|
    decreases |s|
  {
    if BodyChar(s) == 0 then 0 else BodyChar(s) + BodyLength(s[BodyChar(s)..])
  }

  /** A string, from behind its opening quote. */
  function ParseString(s: string): (r: Parsed<string>)
    ensures r.Done? ==> |r.rest| < |s|
  {
    var n := BodyLength(s);
    if n < |s| && s[n] == '"' then Done(s[..n], s[n + 1..]) else Fail
  }

  function Closer(named: bool): char {
    if named then '}' else ']'
  }

  function ParseValue(s: string): (r: Parsed<Value>)
    ensures r.Done? ==> |r.rest| < |s|
    decreases |s|, 0
  {
    if s == "" then Fail
    else if s[0] == '"' then
      match ParseString(s[1..])
      case Fail => Fail
      case Done(body, rest) => Done(StringValue(body), rest)
    else if s[0] == '[' || s[0] == '{' then
      var named := s[0] == '{';
      var t := SkipGap(s[1..]);
      if t != "" && t[0] == Closer(named) then Done(Container(named, []), t[1..])
      else
        match ParseItems(t, named)
        case Fail => Fail
        case Done(items, rest) => Done(Container(named, items), rest)
    else
      var n := ScalarLength(s);
      if IsScalar(s[..n]) then Done(ScalarValue(s[..n]), s[n..]) else Fail
  }

  function ParseMember(s: string, named: bool): (r: Parsed<Member>)
    ensures r.Done? ==> |r.rest| < |s|
    decreases |s|, 1
  {
    if !named then
      match ParseValue(s)
      case Fail => Fail
      case Done(value, rest) => Done(Member(None, value), rest)
    else if s == "" || s[0] != '"' then Fail
    else
      match ParseString(s[1..])
      case Fail => Fail
      case Done(key, rest) =>
        var t := SkipGap(rest);
        if t == "" || t[0] != ':' then Fail
        else
          match ParseValue(SkipGap(t[1..]))
          case Fail => Fail
          case Done(value, rest2) => Done(Member(Some(key), value), rest2)
  }

  function ParseItems(s: string, named: bool): (r: Parsed<seq<Member>>)
    ensures r.Done? ==> |r.rest| < |s|
    decreases |s|, 2
  {
    match ParseMember(s, named)
    case Fail => Fail
    case Done(item, rest) =>
      var t := SkipGap(rest);
      if t == "" then Fail
      else if t[0] == Closer(named) then Done([item], t[1..])
      else if t[0] == ',' then
        match ParseItems(SkipGap(t[1..]), named)
        case Fail => Fail
        case Done(items, rest2) => Done([item] + items, rest2)
      else Fail
  }

  function ParseJson(s: string): Option<Value> {
    match ParseValue(SkipGap(s))
    case Fail => None
    case Done(value, rest) => if SkipGap(rest) == "" then Some(value) else None
  }

  // ---- Parsing what was printed --------------------------------------------------------------------------

  /** The text is the document's, between two gaps. */
  ghost predicate Writes(text: string, before: string, d: Doc, after: string) {
    text == before + Print(d) + after && Ok(d) && IsGap(before) && IsGap(after)
  }

  /** The value a text stands for, whatever its white space and commas. */
  function Meaning(d: Doc): Value {
    match d
    case Scalar(text) => ScalarValue(text)
    case Quoted(body) => StringValue(body)
    case Array(items, _, _) => Container(false, Meanings(items))
    case Object(items, _, _) => Container(true, Meanings(items))
  }

  function Meanings(items: Items): seq<Member> {
    match items
    case End => []
    case Item(_, key, doc, _, rest) =>
      [Member(if key.Some? then Some(key.value.body) else None, Meaning(doc))] + Meanings(rest)
  }

  lemma {:induction false} SkipsGap(gap: string, k: string)
    requires IsGap(gap) && (k == "" || !IsGapChar(k[0]))
    ensures SkipGap(gap + k) == k
  {
    if gap == "" {
      assert gap + k == k;
    } else {
      assert (gap + k)[1..] == gap[1..] + k;
      SkipsGap(gap[1..], k);
    }
  }

  lemma {:induction false} ScalarLengthIs(text: string, k: string)
    requires (forall i :: 0 <= i < |text| ==> IsScalarChar(text[i])) && (k == "" || !IsScalarChar(k[0]))
    ensures ScalarLength(text + k) == |text|
  {
    if text == "" {
      assert text + k == k;
    } else {
      assert (text + k)[1..] == text[1..] + k;
      ScalarLengthIs(text[1..], k);
    }
  }

  lemma {:induction false} BodyLengthIs(body: string, k: string)
    requires IsBody(body)
    ensures BodyLength(body + ("\"" + k)) == |body|
    decreases |body|
  {
    if body == "" {
      assert body + ("\"" + k) == "\"" + k;
    } else {
      var n := BodyChar(body);
      BodyLengthIs(body[n..], k);
      assert (body + ("\"" + k))[n..] == body[n..] + ("\"" + k);
      assert BodyChar(body + ("\"" + k)) == n;
    }
  }

  lemma ParsesString(body: string, k: string)
    requires IsBody(body)
    ensures ParseString(body + ("\"" + k)) == Done(body, k)
  {
    var s := body + ("\"" + k);
    BodyLengthIs(body, k);
    assert s[|body|] == '"' && s[..|body|] == body && s[|body| + 1..] == k;
  }

  predicate NoTrailingComma(d: Doc) {
    match d
    case Scalar(_) => true
    case Quoted(_) => true
    case Array(items, comma, _) => !comma && NoneInItems(items)
    case Object(items, comma, _) => !comma && NoneInItems(items)
  }

  predicate NoneInItems(items: Items) {
    items.Item? ==> NoTrailingComma(items.doc) && NoneInItems(items.rest)
  }

  /** Dropping the trailing commas keeps the value. */
  lemma {:induction false} PlainKeepsMeaning(d: Doc)
    requires Ok(d)
    ensures Ok(Plain(d)) && NoTrailingComma(Plain(d)) && Meaning(Plain(d)) == Meaning(d)
    decreases d
  {
    match d
    case Scalar(_) =>
    case Quoted(_) =>
    case Array(items, _, _) => PlainItemsKeepMeaning(items, false);
    case Object(items, _, _) => PlainItemsKeepMeaning(items, true);
  }

  lemma {:induction false} PlainItemsKeepMeaning(items: Items, named: bool)
    requires ItemsOk(items, named)
    ensures ItemsOk(PlainItems(items), named) && NoneInItems(PlainItems(items)) &&
      Meanings(PlainItems(items)) == Meanings(items)
    decreases items
  {
    if items.Item? {
      PlainKeepsMeaning(items.doc);
      PlainItemsKeepMeaning(items.rest, named);
    }
  }

  /** The text of items from behind their first gap. */
  function FromFirst(items: Items, end: string): string
    requires items.Item?
  {
    var tail := (if items.rest.Item? then "," else "") + PrintItems(items.rest, false, end);
    PrintKey(items.key) + (Print(items.doc) + (items.after + tail))
  }

  lemma FirstGap(items: Items, named: bool, end: string, k: string)
    requires items.Item? && ItemsOk(items, named)
    ensures SkipGap(PrintItems(items, false, end) + k) == FromFirst(items, end) + k
    ensures var text := FromFirst(items, end) + k; text != "" && text[0] != ']' && text[0] != '}'
  {
    var text := FromFirst(items, end) + k;
    DocHead(items.doc);
    assert text[0] == (PrintKey(items.key) + Print(items.doc))[0];
    SixPieces(items.before, PrintKey(items.key), Print(items.doc), items.after, if items.rest.Item? then "," else "",
              PrintItems(items.rest, false, end), "");
    assert PrintItems(items, false, end) + "" == PrintItems(items, false, end);
    assert PrintItems(items.rest, false, end) + "" == PrintItems(items.rest, false, end);
    Reassociate(items.before, FromFirst(items, end), k);
    SkipsGap(items.before, text);
  }

  predicate EndsScalar(k: string) {
    k == "" || !IsScalarChar(k[0])
  }

  lemma ScalarStep(s: string, n: nat)
    requires n <= |s| && ScalarLength(s) == n && IsScalar(s[..n])
    ensures ParseValue(s) == Done(ScalarValue(s[..n]), s[n..])
  {
    assert s[..n][0] == s[0] && IsScalarChar(s[0]);
  }

  lemma StringStep(s: string, body: string, k: string)
    requires ParseString(s) == Done(body, k)
    ensures ParseValue("\"" + s) == Done(StringValue(body), k)
  {
    assert ("\"" + s)[1..] == s;
  }

  function Opener(named: bool): char {
    if named then '{' else '['
  }

  lemma ContainerStep(named: bool, s: string, items: seq<Member>, k: string)
    requires var t := SkipGap(s);
      if items == [] then t != "" && t[0] == Closer(named) && t[1..] == k
      else (t == "" || t[0] != Closer(named)) && ParseItems(t, named) == Done(items, k)
    ensures ParseValue([Opener(named)] + s) == Done(Container(named, items), k)
  {
    assert ([Opener(named)] + s)[1..] == s;
  }

  lemma ParsesScalar(text: string, k: string)
    requires IsScalar(text) && EndsScalar(k)
    ensures ParseValue(text + k) == Done(ScalarValue(text), k)
  {
    ScalarLengthIs(text, k);
    assert (text + k)[..|text|] == text && (text + k)[|text|..] == k;
    ScalarStep(text + k, |text|);
  }

  lemma QuoteJoins(body: string, k: string)
    ensures "\"" + body + "\"" + k == "\"" + (body + ("\"" + k))
  {
  }

  lemma ParsesQuoted(body: string, k: string)
    requires IsBody(body)
    ensures ParseValue("\"" + body + "\"" + k) == Done(StringValue(body), k)
  {
    ParsesString(body, k);
    StringStep(body + ("\"" + k), body, k);
    QuoteJoins(body, k);
  }

  lemma {:induction false} ParsesBracket(items: Items, named: bool, space: string, k: string)
    requires ItemsOk(items, named) && NoneInItems(items) && IsGap(space)
    ensures ParseValue([Opener(named)] + PrintItems(items, false, space + [Closer(named)]) + k) ==
      Done(Container(named, Meanings(items)), k)
    decreases items, 2
  {
    var inner := PrintItems(items, false, space + [Closer(named)]);
    ParsesContainer(items, named, space, k);
    ContainerStep(named, inner + k, Meanings(items), k);
    Reassociate([Opener(named)], inner, k);
  }

  lemma {:induction false} ParsesDoc(d: Doc, k: string)
    requires Ok(d) && NoTrailingComma(d) && EndsScalar(k)
    ensures ParseValue(Print(d) + k) == Done(Meaning(d), k)
    decreases d
  {
    match d
    case Scalar(text) => ParsesScalar(text, k);
    case Quoted(body) => ParsesQuoted(body, k);
    case Array(items, _, space) => ParsesBracket(items, false, space, k);
    case Object(items, _, space) => ParsesBracket(items, true, space, k);
  }

  lemma {:induction false} ParsesContainer(items: Items, named: bool, space: string, k: string)
    requires ItemsOk(items, named) && NoneInItems(items) && IsGap(space)
    ensures var t := SkipGap(PrintItems(items, false, space + [Closer(named)]) + k);
      if items.End? then t != "" && t[0] == Closer(named) && t[1..] == k
      else (t == "" || t[0] != Closer(named)) && ParseItems(t, named) == Done(Meanings(items), k)
    decreases items, 1
  {
    var end := space + [Closer(named)];
    if items.Item? {
      FirstGap(items, named, end, k);
      ParsesItems(items, named, space, k);
    } else {
      Reassociate(space, [Closer(named)], k);
      SkipsGap(space, [Closer(named)] + k);
    }
  }

  lemma KeyStep(body: string, gap: string, colon: string, text: string, value: Value, k: string)
    requires IsBody(body) && IsGap(gap) && colon != "" && colon[0] == ':' && SkipGap(colon[1..]) == text
    requires ParseValue(text) == Done(value, k)
    ensures ParseMember("\"" + (body + ("\"" + (gap + colon))), true) == Done(Member(Some(body), value), k)
  {
    var s := body + ("\"" + (gap + colon));
    assert ("\"" + s)[1..] == s;
    ParsesString(body, gap + colon);
    SkipsGap(gap, colon);
  }

  lemma ParsesMember(key: Option<Name>, d: Doc, named: bool, k: string)
    requires Ok(d) && key.Some? == named
    requires key.Some? ==> IsBody(key.value.body) && IsGap(key.value.gap) && IsGap(key.value.gap2)
    requires ParseValue(Print(d) + k) == Done(Meaning(d), k)
    ensures ParseMember(PrintKey(key) + (Print(d) + k), named) ==
            Done(Member(if key.Some? then Some(key.value.body) else None, Meaning(d)), k)
  {
    var text := Print(d) + k;
    match key
    case None => assert PrintKey(key) + text == text;
    case Some(name) =>
      var colon := ":" + (name.gap2 + text);
      assert colon[1..] == name.gap2 + text;
      DocHead(d);
      SkipsGap(name.gap2, text);
      KeyStep(name.body, name.gap, colon, text, Meaning(d), k);
      SixPieces("\"", name.body, "\"", name.gap, ":", name.gap2, text);
  }

  lemma ItemStep(s: string, named: bool, item: Member, tail: string, t: string, more: seq<Member>, k: string)
    requires ParseMember(s, named) == Done(item, tail) && t != "" && SkipGap(tail) == t
    requires if more == [] then t[0] == Closer(named) && t[1..] == k
             else t[0] == ',' && ParseItems(SkipGap(t[1..]), named) == Done(more, k)
    ensures ParseItems(s, named) == Done([item] + more, k)
  {
    assert [item] + [] == [item];
  }

  lemma {:induction false} ParsesItems(items: Items, named: bool, space: string, k: string)
    requires items.Item? && ItemsOk(items, named) && NoneInItems(items) && IsGap(space)
    ensures ParseItems(FromFirst(items, space + [Closer(named)]) + k, named) == Done(Meanings(items), k)
    decreases items, 0
  {
    var end := space + [Closer(named)];
    var separator := if items.rest.Item? then "," else "";
    var more := PrintItems(items.rest, false, end) + k;
    var tail := items.after + (separator + more);
    TailOfItem(items, named, space, k);
    ParsesDoc(items.doc, tail);
    ParsesMember(items.key, items.doc, named, tail);
    if items.rest.Item? { ParsesContainer(items.rest, named, space, k); }
    ItemStep(PrintKey(items.key) + (Print(items.doc) + tail), named,
             Member(if items.key.Some? then Some(items.key.value.body) else None, Meaning(items.doc)),
             tail, SkipGap(tail),
             Meanings(items.rest), k);
    FromFirstThen(items, end, k);
  }

  lemma FromFirstThen(items: Items, end: string, k: string)
    requires items.Item?
    ensures FromFirst(items, end) + k ==
            PrintKey(items.key) + (Print(items.doc)
              + (items.after + ((if items.rest.Item? then "," else "") + (PrintItems(items.rest, false, end) + k))))
  {
    FivePieces(PrintKey(items.key), Print(items.doc), items.after, if items.rest.Item? then "," else "",
               PrintItems(items.rest, false, end), k);
  }

  lemma FivePieces(a: string, b: string, c: string, d: string, e: string, k: string)
    ensures a + (b + (c + (d + e))) + k == a + (b + (c + (d + (e + k))))
  {
  }

  lemma TailWithComma(after: string, more: string)
    requires IsGap(after)
    ensures EndsScalar(after + ("," + more)) && SkipGap(after + ("," + more)) == "," + more && ("," + more)[1..] == more
  {
    SkipsGap(after, "," + more);
  }

  lemma TailWithEnd(after: string, space: string, closer: string, k: string)
    requires IsGap(after) && IsGap(space) && (closer == "]" || closer == "}")
    ensures var tail := after + ("" + (space + closer + k));
      EndsScalar(tail) && SkipGap(tail) == closer + k && (closer + k)[1..] == k
  {
    assert after + ("" + (space + closer + k)) == (after + space) + (closer + k);
    SkipsGap(after + space, closer + k);
  }

  /** Behind an item: a comma and the next item, or the end of the container. */
  lemma TailOfItem(items: Items, named: bool, space: string, k: string)
    requires items.Item? && ItemsOk(items, named) && IsGap(space)
    ensures var more := PrintItems(items.rest, false, space + [Closer(named)]) + k;
      var tail := items.after + ((if items.rest.Item? then "," else "") + more);
      && EndsScalar(tail)
      && SkipGap(tail) == (if items.rest.Item? then "," + more else [Closer(named)] + k)
      && SkipGap(tail)[1..] == (if items.rest.Item? then more else k)
  {
    if items.rest.Item? {
      TailWithComma(items.after, PrintItems(items.rest, false, space + [Closer(named)]) + k);
    } else {
      TailWithEnd(items.after, space, [Closer(named)], k);
    }
  }

  lemma ParsesText(before: string, d: Doc, after: string)
    requires Writes(before + Print(d) + after, before, d, after) && NoTrailingComma(d)
    ensures ParseJson(before + Print(d) + after) == Some(Meaning(d))
  {
    DocHead(d);
    Reassociate(before, Print(d), after);
    SkipsGap(before, Print(d) + after);
    ParsesDoc(d, after);
    SkipsGap(after, "");
    assert after + "" == after;
  }

  /** Reading a lockfile gives the value it was written from: white space and trailing commas,
      at any depth and next to strings that look like them, make no difference. */
  lemma {:induction false} ParseOfStrippedIsMeaning(before: string, d: Doc, after: string)
    requires Ok(d) && IsGap(before) && IsGap(after)
    ensures ParseJson(StripOutside(before + Print(d) + after)) == Some(Meaning(d))
  {
    StripRemovesTrailingCommas(before, d, after);
    PlainKeepsMeaning(d);
    ParsesText(before, Plain(d), after);
  }

  // ---- What was parsed had been printed ------------------------------------------------------------------

  lemma {:induction false} GapSkipped(s: string) returns (gap: string)
    ensures IsGap(gap) && s == gap + SkipGap(s)
  {
    gap := "";
    if s != "" && IsGapChar(s[0]) {
      gap := GapSkipped(s[1..]);
      gap := [s[0]] + gap;
    }
  }

  lemma {:induction false} HexDigitsAreBody(s: string, n: nat)
    requires n <= |s| && forall i :: 0 <= i < n ==> IsHex(s[i])
    ensures BodyLength(s) >= n
  {
    if n > 0 {
      assert IsHex(s[0]);
      HexDigitsAreBody(s[1..], n - 1);
    }
  }

  lemma {:induction false} BodyIsBody(s: string)
    ensures IsBody(s[..BodyLength(s)])
    decreases |s|
  {
    var n, c := BodyLength(s), BodyChar(s);
    if c > 0 {
      if s[0] == '\\' && s[1] == 'u' { HexDigitsAreBody(s[2..], 4); }
      BodyIsBody(s[c..]);
      assert s[..n][c..] == s[c..][..n - c];
    }
  }

  /** A parsed string, from behind its opening quote. */
  lemma StringWasPrinted(s: string)
    requires ParseString(s).Done?
    ensures IsBody(ParseString(s).value) && s == ParseString(s).value + "\"" + ParseString(s).rest
  {
    BodyIsBody(s);
  }

  lemma {:induction false} ValueWasPrinted(s: string) returns (d: Doc)
    requires ParseValue(s).Done?
    ensures Ok(d) && NoTrailingComma(d) && Meaning(d) == ParseValue(s).value && s == Print(d) + ParseValue(s).rest
    decreases |s|, 1
  {
    if s[0] == '"' {
      StringWasPrinted(s[1..]);
      d := Quoted(ParseString(s[1..]).value);
    } else if s[0] == '[' || s[0] == '{' {
      d := BracketWasPrinted(s);
    } else {
      d := Scalar(s[..ScalarLength(s)]);
    }
  }

  lemma {:induction false} BracketWasPrinted(s: string) returns (d: Doc)
    requires s != "" && (s[0] == '[' || s[0] == '{') && ParseValue(s).Done?
    ensures Ok(d) && NoTrailingComma(d) && Meaning(d) == ParseValue(s).value && s == Print(d) + ParseValue(s).rest
    decreases |s|, 0
  {
    var named, t := s[0] == '{', SkipGap(s[1..]);
    var gap := GapSkipped(s[1..]);
    var items, space := End, gap;
    if t != "" && t[0] != Closer(named) { items, space := MoreWerePrinted(s[1..], named); }
    d := if named then Object(items, false, space) else Array(items, false, space);
  }

  lemma GapInFront(items: Items, gap: string, end: string)
    requires items.Item? && items.before == ""
    ensures PrintItems(items.(before := gap), false, end) == gap + PrintItems(items, false, end)
  {
  }

  predicate StartsWithKey(s: string) {
    && s != "" && s[0] == '"' && ParseString(s[1..]).Done?
    && var t := SkipGap(ParseString(s[1..]).rest); t != "" && t[0] == ':'
  }

  /** What follows a member's name, its colon and their gaps. */
  function TailOfKey(s: string): string
    requires StartsWithKey(s)
  {
    SkipGap(SkipGap(ParseString(s[1..]).rest)[1..])
  }

  lemma JoinKey(body: string, gap: string, gap2: string, tail: string)
    ensures "\"" + (body + "\"" + (gap + (":" + (gap2 + tail)))) == "\"" + body + "\"" + gap + ":" + gap2 + tail
  {
  }

  lemma KeyWasPrinted(s: string) returns (name: Name)
    requires StartsWithKey(s)
    ensures IsBody(name.body) && IsGap(name.gap) && IsGap(name.gap2) && name.body == ParseString(s[1..]).value
    ensures s == PrintKey(Some(name)) + TailOfKey(s)
  {
    StringWasPrinted(s[1..]);
    var rest := ParseString(s[1..]).rest;
    var gap := GapSkipped(rest);
    var gap2 := GapSkipped(SkipGap(rest)[1..]);
    name := Name(ParseString(s[1..]).value, gap, gap2);
    JoinKey(name.body, gap, gap2, TailOfKey(s));
    assert s == "\"" + s[1..] && SkipGap(rest) == ":" + SkipGap(rest)[1..];
  }

  lemma {:induction false} NamedMemberWasPrinted(s: string) returns (name: Name, d: Doc)
    requires ParseMember(s, true).Done?
    ensures ItemsOk(Item("", Some(name), d, "", End), true) && NoTrailingComma(d)
    ensures ParseMember(s, true).value == Member(Some(name.body), Meaning(d))
    ensures s == PrintKey(Some(name)) + Print(d) + ParseMember(s, true).rest
    decreases |s|, 1
  {
    name := KeyWasPrinted(s);
    d := ValueWasPrinted(TailOfKey(s));
    Reassociate(PrintKey(Some(name)), Print(d), ParseMember(s, true).rest);
  }

  lemma {:induction false} MemberWasPrinted(s: string, named: bool) returns (key: Option<Name>, d: Doc)
    requires ParseMember(s, named).Done?
    ensures ItemsOk(Item("", key, d, "", End), named) && NoTrailingComma(d)
    ensures ParseMember(s, named).value == Member(if key.Some? then Some(key.value.body) else None, Meaning(d))
    ensures s == PrintKey(key) + Print(d) + ParseMember(s, named).rest
    decreases |s|, 2
  {
    if named {
      var name;
      name, d := NamedMemberWasPrinted(s);
      key := Some(name);
    } else {
      key := None;
      d := ValueWasPrinted(s);
    }
  }

  /** What follows the first member and its gap. */
  function AfterFirst(s: string, named: bool): string
    requires ParseItems(s, named).Done?
  {
    SkipGap(ParseMember(s, named).rest)
  }

  lemma {:induction false} FirstWasPrinted(s: string, named: bool) returns (key: Option<Name>, d: Doc, after: string)
    requires ParseItems(s, named).Done?
    ensures ItemsOk(Item("", key, d, after, End), named) && NoTrailingComma(d)
    ensures ParseMember(s, named).value == Member(if key.Some? then Some(key.value.body) else None, Meaning(d))
    ensures s == PrintKey(key) + Print(d) + (after + AfterFirst(s, named))
    decreases |s|, 3
  {
    key, d := MemberWasPrinted(s, named);
    after := GapSkipped(ParseMember(s, named).rest);
  }

  lemma {:induction false} ItemsWerePrinted(s: string, named: bool) returns (items: Items, space: string)
    requires ParseItems(s, named).Done?
    ensures items.Item? && items.before == "" && ItemsOk(items, named) && NoneInItems(items) && IsGap(space)
    ensures Meanings(items) == ParseItems(s, named).value
    ensures s == PrintItems(items, false, space + [Closer(named)]) + ParseItems(s, named).rest
    decreases |s|, 4
  {
    var key, d, after := FirstWasPrinted(s, named);
    var t, more := AfterFirst(s, named), End;
    space := "";
    if t[0] != Closer(named) {
      more, space := MoreWerePrinted(t[1..], named);
      assert t == "," + t[1..];
    }
    items := Item("", key, d, after, more);
    ItemPrints(key, d, after, more, space + [Closer(named)], t, ParseItems(s, named).rest);
  }

  /** The items behind a comma, with the gap before the first. */
  lemma {:induction false} MoreWerePrinted(s: string, named: bool) returns (items: Items, space: string)
    requires ParseItems(SkipGap(s), named).Done?
    ensures items.Item? && ItemsOk(items, named) && NoneInItems(items) && IsGap(space)
    ensures Meanings(items) == ParseItems(SkipGap(s), named).value
    ensures s == PrintItems(items, false, space + [Closer(named)]) + ParseItems(SkipGap(s), named).rest
    decreases |s|, 5
  {
    var gap := GapSkipped(s);
    items, space := ItemsWerePrinted(SkipGap(s), named);
    GapInFront(items, gap, space + [Closer(named)]);
    Reassociate(gap, PrintItems(items, false, space + [Closer(named)]), ParseItems(SkipGap(s), named).rest);
    items := items.(before := gap);
  }

  lemma ItemPrints(key: Option<Name>, d: Doc, after: string, more: Items, end: string, t: string, rest: string)
    requires t == (if more.Item? then "," else "") + (PrintItems(more, false, end) + rest)
    ensures PrintKey(key) + Print(d) + (after + t) == PrintItems(Item("", key, d, after, more), false, end) + rest
  {
    JoinItem(PrintKey(key), Print(d), after, if more.Item? then "," else "", PrintItems(more, false, end), rest);
  }

  lemma JoinItem(key: string, text: string, after: string, comma: string, more: string, rest: string)
    ensures key + text + (after + (comma + (more + rest))) == "" + key + text + after + comma + more + rest
  {
  }

  lemma TextWasPrinted(s: string) returns (before: string, d: Doc, after: string)
    requires ParseJson(s).Some?
    ensures Writes(s, before, d, after) && NoTrailingComma(d) && ParseJson(s) == Some(Meaning(d))
  {
    before := GapSkipped(s);
    d := ValueWasPrinted(SkipGap(s));
    after := GapSkipped(ParseValue(SkipGap(s)).rest);
    assert after + "" == after;
    Reassociate(before, Print(d), after);
  }

  /** The parser reads exactly the JSON texts, section 2 of RFC 8259, and of each its value. */
  lemma {:induction false} ParseJsonExactly(s: string, v: Value)
    ensures ParseJson(s) == Some(v) <==>
            exists before, d, after :: Writes(s, before, d, after) && NoTrailingComma(d) && Meaning(d) == v
  {
    if ParseJson(s) == Some(v) { var before, d, after := TextWasPrinted(s); }
    forall before, d, after | Writes(s, before, d, after) && NoTrailingComma(d)
      ensures ParseJson(s) == Some(Meaning(d))
    {
      ParsesText(before, d, after);
    }
  }

  /** parseBunLock: the text must hold an object. A text written with trailing commas gives the
      value it was written from. Whatever the text, a result is the value of a JSON object whose
      text is what stripping leaves, and there is none only if stripping leaves no such text. */
  method ParseBunLock(raw: string) returns (r: Option<Value>)
    ensures forall before, d, after ::
      Writes(raw, before, d, after) ==> r == if d.Object? then Some(Meaning(d)) else None
    ensures forall v ::
      r == Some(v) <==>
      exists before, d, after ::
        Writes(StripOutside(raw), before, d, after) && NoTrailingComma(d) && d.Object? && Meaning(d) == v
  {
    var stripped := StripTrailingCommas(raw);
    var parsed := ParseJson(stripped);
    r := if parsed.Some? && parsed.value.Container? && parsed.value.named then parsed else None;
    forall before, d, after | Writes(raw, before, d, after)
      ensures r == if d.Object? then Some(Meaning(d)) else None
    {
      ParseOfStrippedIsMeaning(before, d, after);
    }
    forall v
      ensures ParseJson(stripped) == Some(v) <==>
              exists before, d, after :: Writes(stripped, before, d, after) && NoTrailingComma(d) && Meaning(d) == v
    {
      ParseJsonExactly(stripped, v);
    }
  }
}
