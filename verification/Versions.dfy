/** Version numbers, constraints on them, and the two searches over known versions. */
module Versions {
  import opened Options
  import opened Text

  // ---- Parsing and comparing --------------------------------------------------------------------

  function StripV(s: string): string {
    if s != "" && s[0] == 'v' then s[1..] else s
  }

  /** Numeric parts of a version without its pre-release suffix; `None` is not-a-number. */
  function ParseSemver(version: string): seq<Option<int>> {
    ParseParts(Split(Split(StripV(version), '-')[0], '.'))
  }

  function ParseParts(parts: seq<string>): seq<Option<int>> {
    if parts == [] then [] else [ParseInt(parts[0])] + ParseParts(parts[1..])
  }

  /** A missing part, or one that is not a number, counts as zero. */
  function PartValue(parts: seq<Option<int>>, i: nat): int {
    if i < |parts| && parts[i].Some? then parts[i].value else 0
  }

  function CompareParts(a: seq<Option<int>>, b: seq<Option<int>>, i: nat): int
    requires i <= 3
    decreases 3 - i
  {
    if i == 3 then 0
    else if PartValue(a, i) != PartValue(b, i) then PartValue(a, i) - PartValue(b, i)
    else CompareParts(a, b, i + 1)
  }

  predicate IsPrerelease(version: string) {
    '-' in StripV(version)
  }

  function CompareSemver(a: string, b: string): int {
    var c := CompareParts(ParseSemver(a), ParseSemver(b), 0);
    if c != 0 then c
    else if IsPrerelease(a) && !IsPrerelease(b) then -1
    else if !IsPrerelease(a) && IsPrerelease(b) then 1
    else 0
  }

  // ---- The order ----------------------------------------------------------------------------------

  /** What of a version decides its place. */
  datatype Key = Key(major: int, minor: int, patch: int, stable: bool)

  function KeyOf(version: string): Key {
    var p := ParseSemver(version);
    Key(PartValue(p, 0), PartValue(p, 1), PartValue(p, 2), !IsPrerelease(version))
  }

  predicate KeyLess(a: Key, b: Key) {
    || a.major < b.major
    || (a.major == b.major && a.minor < b.minor)
    || (a.major == b.major && a.minor == b.minor && a.patch < b.patch)
    || (a.major == b.major && a.minor == b.minor && a.patch == b.patch && !a.stable && b.stable)
  }

  /** The comparison is the lexicographic order of the three numbers, a pre-release sorting just
      below its release. */
  lemma CompareIsKeyOrder(a: string, b: string)
    ensures CompareSemver(a, b) < 0 <==> KeyLess(KeyOf(a), KeyOf(b))
    ensures CompareSemver(a, b) > 0 <==> KeyLess(KeyOf(b), KeyOf(a))
    ensures CompareSemver(a, b) == 0 <==> KeyOf(a) == KeyOf(b)
  {
  }

  /** A total preorder on all strings, so sorting by it is meaningful. */
  lemma CompareIsTotalPreorder(a: string, b: string, c: string)
    ensures CompareSemver(a, a) == 0
    ensures CompareSemver(a, b) <= 0 || CompareSemver(b, a) <= 0
    ensures CompareSemver(a, b) < 0 <==> CompareSemver(b, a) > 0
    ensures CompareSemver(a, b) <= 0 && CompareSemver(b, c) <= 0 ==> CompareSemver(a, c) <= 0
  {
  }

  // ---- Constraints -----------------------------------------------------------------------------------

  predicate StartsWith(s: string, prefix: string) {
    prefix <= s
  }

  /** The upper end of `~> X.Y.Z`: `X.(Y+1).0`, where a part that is not a number stays one. */
  function PessimisticUpper(target: string): string {
    var parts := ParseParts(Split(target, '.'));
    var major := if |parts| > 0 then parts[0] else Some(0);
    var minor := if |parts| > 1 then parts[1] else Some(0);
    Shown(major) + "." + Shown(if minor.Some? then Some(minor.value + 1) else None) + ".0"
  }

  function Shown(n: Option<int>): string {
    match n
    case None => "NaN"
    case Some(v) => if v < 0 then "-" + Decimal(-v) else Decimal(v)
  }

  predicate MatchesConstraint(version: string, constraint: string) {
    var trimmed := Trim(constraint);
    if StartsWith(trimmed, "~> ") then
      var target := StripV(trimmed[3..]);
      CompareSemver(version, target) >= 0 && CompareSemver(version, PessimisticUpper(target)) < 0
    else if StartsWith(trimmed, ">= ") then CompareSemver(version, StripV(trimmed[3..])) >= 0
    else if StartsWith(trimmed, "<= ") then CompareSemver(version, StripV(trimmed[3..])) <= 0
    else if StartsWith(trimmed, "> ") then CompareSemver(version, StripV(trimmed[2..])) > 0
    else if StartsWith(trimmed, "< ") then CompareSemver(version, StripV(trimmed[2..])) < 0
    else CompareSemver(version, StripV(trimmed)) == 0
  }

  predicate MatchesAll(version: string, constraints: seq<string>) {
    constraints == [] || (MatchesConstraint(version, Trim(constraints[0])) && MatchesAll(version, constraints[1..]))
  }

  predicate MatchesConstraints(version: string, expr: string) {
    expr == "latest" || MatchesAll(version, Split(expr, ','))
  }

  lemma {:induction false} ConstraintIsConvex(a: string, b: string, c: string, constraint: string)
    requires CompareSemver(a, b) <= 0 && CompareSemver(b, c) <= 0
    requires MatchesConstraint(a, constraint) && MatchesConstraint(c, constraint)
    ensures MatchesConstraint(b, constraint)
  {
    CompareIsKeyOrder(a, b);
    CompareIsKeyOrder(b, c);
    var trimmed := Trim(constraint);
    var target := StripV(if StartsWith(trimmed, "~> ") || StartsWith(trimmed, ">= ") || StartsWith(trimmed, "<= ")
                         then trimmed[3..]
                         else if StartsWith(trimmed, "> ") || StartsWith(trimmed, "< ") then trimmed[2..]
                         else trimmed);
    CompareIsKeyOrder(a, target);
    CompareIsKeyOrder(b, target);
    CompareIsKeyOrder(c, target);
    CompareIsKeyOrder(b, PessimisticUpper(target));
    CompareIsKeyOrder(c, PessimisticUpper(target));
  }

  lemma {:induction false} ConstraintsAreConvex(a: string, b: string, c: string, constraints: seq<string>)
    requires CompareSemver(a, b) <= 0 && CompareSemver(b, c) <= 0
    requires MatchesAll(a, constraints) && MatchesAll(c, constraints)
    ensures MatchesAll(b, constraints)
  {
    if constraints != [] {
      ConstraintIsConvex(a, b, c, Trim(constraints[0]));
      ConstraintsAreConvex(a, b, c, constraints[1..]);
    }
  }

  // ---- Searches --------------------------------------------------------------------------------------

  predicate SortedVersions(versions: seq<string>) {
    forall i, j :: 0 <= i < j < |versions| ==> CompareSemver(versions[i], versions[j]) <= 0
  }

  /** In a sorted list the versions that satisfy an expression form one block. */
  lemma {:induction false} MatchesAreContiguous(versions: seq<string>, expr: string, i: nat, j: nat, k: nat)
    requires SortedVersions(versions) && i < j < k < |versions|
    requires MatchesConstraints(versions[i], expr) && MatchesConstraints(versions[k], expr)
    ensures MatchesConstraints(versions[j], expr)
  {
    if expr != "latest" { ConstraintsAreConvex(versions[i], versions[j], versions[k], Split(expr, ',')); }
  }

  /** The resolution of an expression that is neither "latest" nor an exact version: the descending
      search over the sorted list finds the greatest match, and fails exactly without any. */
  method ResolveConstraint(available: seq<string>, expr: string) returns (r: Option<string>)
    requires SortedVersions(available)
    ensures r.None? <==> forall v :: v in available ==> !MatchesConstraints(v, expr)
    ensures r.Some? ==> r.value in available && MatchesConstraints(r.value, expr)
    ensures r.Some? ==> forall v :: v in available && MatchesConstraints(v, expr) ==> CompareSemver(v, r.value) <= 0
  {
    var i := |available|;
    while i > 0
      invariant 0 <= i <= |available|
      invariant forall k :: i <= k < |available| ==> !MatchesConstraints(available[k], expr)
    {
      i := i - 1;
      if MatchesConstraints(available[i], expr) {
        forall v | v in available && MatchesConstraints(v, expr) ensures CompareSemver(v, available[i]) <= 0 {
          var k :| 0 <= k < |available| && available[k] == v;
          CompareIsKeyOrder(v, v);
        }
        return Some(available[i]);
      }
    }
    return None;
  }

  predicate AtOrBelow(v: string, target: string) {
    CompareSemver(v, StripV(target)) <= 0
  }

  /** The greatest candidate at or below the target; without one the greatest of all. */
  method ClosestKnownVersion(target: string, candidates: seq<string>) returns (r: Option<string>)
    ensures r.None? <==> candidates == []
    ensures r.Some? ==> r.value in candidates && FirstOfEquals(r.value, candidates)
    ensures r.Some? && (exists v :: v in candidates && AtOrBelow(v, target)) ==>
              && AtOrBelow(r.value, target)
              && forall v :: v in candidates && AtOrBelow(v, target) ==> CompareSemver(v, r.value) <= 0
    ensures r.Some? && !(exists v :: v in candidates && AtOrBelow(v, target)) ==>
              forall v :: v in candidates ==> CompareSemver(v, r.value) <= 0
  {
    var below, highest: Option<string> := None, None;
    var i := 0;
    while i < |candidates|
      invariant 0 <= i <= |candidates|
      invariant IsGreatest(highest, candidates[..i])
      invariant IsGreatestBelow(below, candidates[..i], target)
    {
      var candidate := candidates[i];
      assert candidates[..i + 1] == candidates[..i] + [candidate];
      GreatestGrows(highest, candidates[..i], candidate);
      GreatestBelowGrows(below, candidates[..i], candidate, target);
      if highest.None? || CompareSemver(candidate, highest.value) > 0 { highest := Some(candidate); }
      if CompareSemver(candidate, StripV(target)) <= 0 && (below.None? || CompareSemver(candidate, below.value) > 0) {
        below := Some(candidate);
      }
      i := i + 1;
    }
    assert candidates[..i] == candidates;
    r := if below.Some? then below else highest;
  }

  /** The version is in the list, and none before it is equal. */
  ghost predicate FirstOfEquals(best: string, vs: seq<string>) {
    exists i :: 0 <= i < |vs| && vs[i] == best && forall j :: 0 <= j < i ==> CompareSemver(vs[j], best) != 0
  }

  lemma FirstStays(best: string, vs: seq<string>, c: string)
    ensures FirstOfEquals(best, vs) ==> FirstOfEquals(best, vs + [c])
    ensures (forall v :: v in vs ==> CompareSemver(v, c) != 0) ==> FirstOfEquals(c, vs + [c])
  {
    if FirstOfEquals(best, vs) {
      var i :| 0 <= i < |vs| && vs[i] == best && forall j :: 0 <= j < i ==> CompareSemver(vs[j], best) != 0;
      assert (vs + [c])[i] == best && forall j :: 0 <= j < i ==> (vs + [c])[j] == vs[j];
    }
    if forall v :: v in vs ==> CompareSemver(v, c) != 0 {
      assert (vs + [c])[|vs|] == c && forall j :: 0 <= j < |vs| ==> (vs + [c])[j] in vs;
    }
  }

  ghost predicate IsGreatest(best: Option<string>, vs: seq<string>) {
    && (best.None? <==> vs == [])
    && (best.Some? ==> FirstOfEquals(best.value, vs) && forall v :: v in vs ==> CompareSemver(v, best.value) <= 0)
  }

  ghost predicate IsGreatestBelow(best: Option<string>, vs: seq<string>, target: string) {
    && (best.None? ==> forall v :: v in vs ==> !AtOrBelow(v, target))
    && (best.Some? ==> FirstOfEquals(best.value, vs) && AtOrBelow(best.value, target)
                       && forall v :: v in vs && AtOrBelow(v, target) ==> CompareSemver(v, best.value) <= 0)
  }

  lemma GreatestGrows(best: Option<string>, vs: seq<string>, c: string)
    requires IsGreatest(best, vs)
    ensures IsGreatest(if best.None? || CompareSemver(c, best.value) > 0 then Some(c) else best, vs + [c])
  {
    CompareIsTotalPreorder(c, c, c);
    FirstStays(if best.Some? then best.value else c, vs, c);
    if best.Some? {
      forall v | v in vs ensures CompareSemver(c, best.value) > 0 ==> CompareSemver(v, c) < 0 {
        CompareIsTotalPreorder(v, best.value, c);
        CompareIsTotalPreorder(c, v, best.value);
      }
      forall v | v in vs ensures CompareSemver(c, best.value) > 0 ==> CompareSemver(v, c) <= 0 {
        CompareIsTotalPreorder(v, best.value, c);
        CompareIsTotalPreorder(c, best.value, c);
      }
    }
  }

  lemma GreatestBelowGrows(best: Option<string>, vs: seq<string>, c: string, target: string)
    requires IsGreatestBelow(best, vs, target)
    ensures IsGreatestBelow(if AtOrBelow(c, target) && (best.None? || CompareSemver(c, best.value) > 0) then Some(c)
                            else best,
                            vs + [c], target)
  {
    CompareIsTotalPreorder(c, c, c);
    FirstStays(if best.Some? then best.value else c, vs, c);
    forall v | v in vs && AtOrBelow(c, target) && (best.None? || CompareSemver(c, best.value) > 0)
      ensures CompareSemver(v, c) != 0
    {
      CompareIsTotalPreorder(v, c, StripV(target));
      if best.Some? && AtOrBelow(v, target) {
        CompareIsTotalPreorder(v, best.value, c);
        CompareIsTotalPreorder(c, v, best.value);
      }
    }
    if best.Some? {
      forall v | v in vs && AtOrBelow(v, target) ensures CompareSemver(c, best.value) > 0 ==> CompareSemver(v, c) <= 0 {
        CompareIsTotalPreorder(v, best.value, c);
        CompareIsTotalPreorder(c, best.value, c);
      }
    }
  }

  // ---- Printed versions ------------------------------------------------------------------------------------

  /** A version as it is written: perhaps a `v`, numbers with points between, and perhaps a suffix
      from a hyphen on. */
  datatype Printed = Printed(v: bool, numbers: seq<nat>, suffix: string)

  predicate WellFormed(p: Printed) {
    p.numbers != [] && (p.suffix == "" || p.suffix[0] == '-')
  }

  function Dotted(numbers: seq<nat>): (s: string)
    requires numbers != []
    ensures s != "" && IsDigit(s[0]) && IsDigit(s[|s| - 1]) && '-' !in s
  {
    DigitsAreNot(Decimal(numbers[0]), '-');
    if |numbers| == 1 then Decimal(numbers[0]) else Decimal(numbers[0]) + "." + Dotted(numbers[1..])
  }

  function Written(p: Printed): string
    requires WellFormed(p)
  {
    (if p.v then "v" else "") + Dotted(p.numbers) + p.suffix
  }

  /** A number that is not written counts as zero. */
  function Number(p: Printed, i: nat): nat {
    if i < |p.numbers| then p.numbers[i] else 0
  }

  /** The first three numbers decide; with all of them equal, a suffix makes the older one. */
  predicate Older(a: Printed, b: Printed) {
    if Number(a, 0) != Number(b, 0) then Number(a, 0) < Number(b, 0)
    else if Number(a, 1) != Number(b, 1) then Number(a, 1) < Number(b, 1)
    else if Number(a, 2) != Number(b, 2) then Number(a, 2) < Number(b, 2)
    else a.suffix != "" && b.suffix == ""
  }

  predicate SameAge(a: Printed, b: Printed) {
    && Number(a, 0) == Number(b, 0) && Number(a, 1) == Number(b, 1) && Number(a, 2) == Number(b, 2)
    && (a.suffix == "" <==> b.suffix == "")
  }

  lemma DigitsAreNot(s: string, c: char)
    requires (forall i :: 0 <= i < |s| ==> IsDigit(s[i])) && !IsDigit(c)
    ensures c !in s
  {
  }

  lemma {:induction false} DottedParts(numbers: seq<nat>)
    requires numbers != []
    ensures var parts := ParseParts(Split(Dotted(numbers), '.'));
      |parts| == |numbers| && forall i :: 0 <= i < |parts| ==> parts[i] == Some(numbers[i] as int)
  {
    var head := Decimal(numbers[0]);
    DigitsAreNot(head, '.');
    ParseDecimal(numbers[0]);
    if |numbers| == 1 {
      SplitWhole(head, '.');
      assert [head][1..] == [];
    } else {
      var rest := Dotted(numbers[1..]);
      DottedParts(numbers[1..]);
      SplitJoined(head, '.', rest);
      assert ([head] + Split(rest, '.'))[1..] == Split(rest, '.');
    }
  }

  lemma WithoutV(p: Printed)
    requires WellFormed(p)
    ensures StripV(Written(p)) == Dotted(p.numbers) + p.suffix == Written(p.(v := false))
  {
    var s := Dotted(p.numbers) + p.suffix;
    if p.v {
      assert Written(p)[1..] == s;
    } else {
      assert Written(p) == s && s[0] == Dotted(p.numbers)[0];
    }
    assert Written(p.(v := false)) == s;
  }

  lemma WrittenHead(p: Printed)
    requires WellFormed(p)
    ensures var s := Dotted(p.numbers);
      Split(s + p.suffix, '-')[0] == s && ('-' in s + p.suffix <==> p.suffix != "")
  {
    var s := Dotted(p.numbers);
    if p.suffix == "" {
      SplitWhole(s, '-');
      assert s + p.suffix == s;
    } else {
      SplitJoined(s, '-', p.suffix[1..]);
      assert s + p.suffix == s + ['-'] + p.suffix[1..];
      assert (s + p.suffix)[|s|] == '-';
    }
  }

  /** A written version parses to its numbers, and counts as a pre-release exactly with a suffix. */
  lemma ReleaseKey(p: Printed)
    requires WellFormed(p)
    ensures KeyOf(Written(p)) == Key(Number(p, 0), Number(p, 1), Number(p, 2), p.suffix == "")
    ensures |ParseSemver(Written(p))| == |p.numbers|
  {
    WithoutV(p);
    WrittenHead(p);
    DottedParts(p.numbers);
  }

  /** So the comparison orders written versions by their first three numbers, a version with a
      suffix just below the one without. */
  lemma {:induction false} WrittenOrder(a: Printed, b: Printed)
    requires WellFormed(a) && WellFormed(b)
    ensures CompareSemver(Written(a), Written(b)) < 0 <==> Older(a, b)
    ensures CompareSemver(Written(a), Written(b)) > 0 <==> Older(b, a)
    ensures CompareSemver(Written(a), Written(b)) == 0 <==> SameAge(a, b)
  {
    ReleaseKey(a);
    ReleaseKey(b);
    CompareIsKeyOrder(Written(a), Written(b));
  }

  // ---- What a constraint means -----------------------------------------------------------------------------

  datatype Operator = AtLeast | AtMost | Above | Below | Exactly | Pessimistic

  function Sign(op: Operator): string {
    match op
    case AtLeast => ">= "
    case AtMost => "<= "
    case Above => "> "
    case Below => "< "
    case Exactly => ""
    case Pessimistic => "~> "
  }

  /** Which versions an operator admits for a target. */
  predicate Admits(op: Operator, target: Printed, p: Printed) {
    match op
    case AtLeast => !Older(p, target)
    case AtMost => !Older(target, p)
    case Above => Older(target, p)
    case Below => Older(p, target)
    case Exactly => SameAge(p, target)
    case Pessimistic =>
      || (Number(p, 0) == Number(target, 0) && Number(p, 1) == Number(target, 1) &&
          (if p.suffix == "" then Number(p, 2) >= Number(target, 2) else Number(p, 2) > Number(target, 2)))
      || (Number(p, 0) == Number(target, 0) && Number(p, 1) == Number(target, 1) + 1 && Number(p, 2) == 0 &&
          p.suffix != "")
  }

  /** A constraint's text, with white space around it. */
  function ConstraintText(before: string, op: Operator, target: Printed, after: string): string
    requires WellFormed(target)
  {
    before + Sign(op) + Written(target) + after
  }

  lemma TrimmedEnd(head: string, suffix: string, after: string)
    requires head != "" && !IsSpace(head[|head| - 1]) && AllSpace(after) && (suffix == "" || suffix[0] == '-')
    ensures TrimEnd(head + suffix + after) == head + TrimEnd(suffix)
    ensures suffix != "" ==> TrimEnd(suffix) != "" && TrimEnd(suffix)[0] == '-'
  {
    TrimEndPast(head + suffix, after);
    if suffix == "" {
      assert head + suffix == head;
    } else {
      TrimEndInside(head, suffix);
    }
  }

  lemma TrimmedText(before: string, head: string, suffix: string, after: string)
    requires head != "" && !IsSpace(head[0]) && !IsSpace(head[|head| - 1]) && AllSpace(before) && AllSpace(after)
    requires suffix == "" || suffix[0] == '-'
    ensures Trim(before + (head + suffix + after)) == head + TrimEnd(suffix)
  {
    var text := head + suffix + after;
    TrimStartPast(before, text);
    assert text[0] == head[0];
    TrimmedEnd(head, suffix, after);
  }

  /** Trimming leaves the operator and the target, of whose suffix it may cut white space. */
  lemma {:induction false} TrimmedConstraint(before: string, op: Operator, target: Printed, after: string)
    returns (kept: Printed)
    requires AllSpace(before) && AllSpace(after) && WellFormed(target)
    ensures WellFormed(kept) && kept == target.(suffix := kept.suffix) && (kept.suffix == "" <==> target.suffix == "")
    ensures Trim(ConstraintText(before, op, target, after)) == Sign(op) + Written(kept)
  {
    var d, v, sign := Dotted(target.numbers), if target.v then "v" else "", Sign(op);
    var head := sign + v + d;
    HeadIsNoSpace(sign, v, d);
    TrimmedEnd(head, target.suffix, after);
    kept := target.(suffix := TrimEnd(target.suffix));
    TrimmedText(before, head, target.suffix, after);
    Regrouped(before, sign, v, d, target.suffix, after);
    Regrouped("", sign, v, d, kept.suffix, "");
  }

  lemma HeadIsNoSpace(sign: string, v: string, d: string)
    requires sign == "" || !IsSpace(sign[0])
    requires (v == "" || v == "v") && d != "" && IsDigit(d[0]) && IsDigit(d[|d| - 1])
    ensures var head := sign + v + d; head != "" && !IsSpace(head[0]) && !IsSpace(head[|head| - 1])
  {
    var head := sign + v + d;
    assert head[|head| - 1] == d[|d| - 1];
    assert head[0] == if sign != "" then sign[0] else if v != "" then v[0] else d[0];
  }

  lemma Regrouped(before: string, sign: string, v: string, d: string, suffix: string, after: string)
    ensures before + sign + (v + d + suffix) + after == before + (sign + v + d + suffix + after)
    ensures sign + (v + d + suffix) == sign + v + d + suffix
  {
    assert sign + (v + d + suffix) == sign + v + d + suffix;
  }

  lemma DottedThree(x: nat, y: nat)
    ensures Written(Printed(false, [x, y, 0], "")) == Decimal(x) + "." + Decimal(y) + ".0"
  {
    assert [x, y, 0][1..] == [y, 0] && [y, 0][1..] == [0];
    assert Dotted([0]) == "0" by { assert Decimal(0) == "0"; }
    assert Dotted([y, 0]) == Decimal(y) + "." + "0";
    assert Dotted([x, y, 0]) == Decimal(x) + "." + (Decimal(y) + "." + "0");
  }

  /** The upper end of `~> X.Y.Z`. */
  function UpperEnd(target: Printed): Printed {
    Printed(false, [Number(target, 0), Number(target, 1) + 1, 0], "")
  }

  lemma UpperOfTarget(target: Printed)
    requires WellFormed(target) && target.suffix == ""
    ensures PessimisticUpper(StripV(Written(target))) == Written(UpperEnd(target))
  {
    PlainWithoutV(target);
    UpperOfDotted(target);
    DottedThree(Number(target, 0), Number(target, 1) + 1);
  }

  lemma PlainWithoutV(p: Printed)
    requires WellFormed(p) && p.suffix == ""
    ensures StripV(Written(p)) == Dotted(p.numbers)
  {
    WithoutV(p);
    assert Dotted(p.numbers) + "" == Dotted(p.numbers);
  }

  lemma UpperOfDotted(target: Printed)
    requires target.numbers != []
    ensures PessimisticUpper(Dotted(target.numbers)) ==
            Decimal(Number(target, 0)) + "." + Decimal(Number(target, 1) + 1) + ".0"
  {
    DottedParts(target.numbers);
  }

  lemma BelowUpperEnd(p: Printed, target: Printed)
    requires target.suffix == ""
    ensures Admits(Pessimistic, target, p) <==> !Older(p, target) && Older(p, UpperEnd(target))
  {
    var upper := UpperEnd(target);
    assert Number(upper, 0) == Number(target, 0) && Number(upper, 1) == Number(target, 1) + 1 && Number(upper, 2) == 0;
  }

  /** A constraint that starts with an operator's sign is taken for that operator. */
  lemma OperatorIsRead(op: Operator, rest: string)
    requires rest != "" && (rest[0] == 'v' || IsDigit(rest[0]))
    ensures var s := Sign(op) + rest;
      && s[|Sign(op)|..] == rest
      && (StartsWith(s, "~> ") <==> op.Pessimistic?) && (StartsWith(s, ">= ") <==> op.AtLeast?)
      && (StartsWith(s, "<= ") <==> op.AtMost?) && (StartsWith(s, "> ") <==> op.Above?)
      && (StartsWith(s, "< ") <==> op.Below?)
  {
    var s := Sign(op) + rest;
    assert op.Exactly? ==> s[0] == rest[0];
    assert !op.Exactly? ==> s[0] == Sign(op)[0] && s[1] == Sign(op)[1];
    assert StartsWith(s, Sign(op));
  }

  lemma OperatorUnfolds(version: string, op: Operator, rest: string, text: string)
    requires Trim(text) == Sign(op) + rest && rest != "" && (rest[0] == 'v' || IsDigit(rest[0]))
    ensures MatchesConstraint(version, text) <==>
      match op
      case AtLeast => CompareSemver(version, StripV(rest)) >= 0
      case AtMost => CompareSemver(version, StripV(rest)) <= 0
      case Above => CompareSemver(version, StripV(rest)) > 0
      case Below => CompareSemver(version, StripV(rest)) < 0
      case Exactly => CompareSemver(version, StripV(rest)) == 0
      case Pessimistic =>
        CompareSemver(version, StripV(rest)) >= 0 && CompareSemver(version, PessimisticUpper(StripV(rest))) < 0
  {
    OperatorIsRead(op, rest);
  }

  lemma TargetOrder(p: Printed, target: Printed)
    requires WellFormed(p) && WellFormed(target)
    ensures var c := CompareSemver(Written(p), StripV(Written(target)));
      (c < 0 <==> Older(p, target)) && (c > 0 <==> Older(target, p)) && (c == 0 <==> SameAge(p, target))
    ensures Written(target)[0] == 'v' || IsDigit(Written(target)[0])
  {
    var stripped := target.(v := false);
    WithoutV(target);
    assert Written(target)[0] == if target.v then 'v' else Dotted(target.numbers)[0];
    WrittenOrder(p, stripped);
  }

  lemma {:induction false} PessimisticMeans(p: Printed, target: Printed)
    requires WellFormed(p) && WellFormed(target) && target.suffix == ""
    ensures Admits(Pessimistic, target, p) <==>
            && CompareSemver(Written(p), StripV(Written(target))) >= 0
            && CompareSemver(Written(p), PessimisticUpper(StripV(Written(target)))) < 0
  {
    TargetOrder(p, target);
    UpperOfTarget(target);
    WrittenOrder(p, UpperEnd(target));
    BelowUpperEnd(p, target);
  }

  /** Of all written versions, with or without a suffix, a constraint admits exactly those that its
      operator says: for the comparisons by the order of the numbers, with a suffix just below
      without; for `~> X.Y.Z` the versions X.Y.z with z at least Z, their pre-releases above X.Y.Z
      itself, and the pre-releases of X.(Y+1).0. White space around it and a `v` do not matter. */
  lemma {:induction false} ConstraintMeans(p: Printed, before: string, op: Operator, target: Printed, after: string)
    requires WellFormed(p) && WellFormed(target) && AllSpace(before) && AllSpace(after)
    requires op.Pessimistic? ==> target.suffix == ""
    ensures MatchesConstraint(Written(p), ConstraintText(before, op, target, after)) <==> Admits(op, target, p)
  {
    var kept := TrimmedConstraint(before, op, target, after);
    var text := ConstraintText(before, op, target, after);
    TargetOrder(p, kept);
    OperatorUnfolds(Written(p), op, Written(kept), text);
    if op.Pessimistic? { PessimisticMeans(p, kept); }
  }

  // ---- What an expression means ----------------------------------------------------------------------------

  lemma {:induction false} AllOfJoined(version: string, a: seq<string>, b: seq<string>)
    ensures MatchesAll(version, a + b) <==> MatchesAll(version, a) && MatchesAll(version, b)
  {
    if a == [] {
      assert a + b == b;
    } else {
      assert (a + b)[1..] == a[1..] + b;
      AllOfJoined(version, a[1..], b);
    }
  }

  /** Two expressions with a comma between admit what both admit. */
  lemma {:induction false} CommaIntersects(version: string, a: string, b: string)
    requires a != "latest" && b != "latest"
    ensures MatchesConstraints(version, a + "," + b) <==>
            MatchesConstraints(version, a) && MatchesConstraints(version, b)
  {
    SplitAppends(a, ',', b);
    AllOfJoined(version, Split(a, ','), Split(b, ','));
    assert "latest"[0] != ',' && forall i :: 0 <= i < |"latest"| ==> "latest"[i] != ',';
    assert (a + "," + b)[|a|] == ',';
  }

  /** Without a comma an expression is its one constraint; "latest" admits everything. */
  lemma OneConstraint(version: string, c: string)
    requires ',' !in c
    ensures MatchesConstraints(version, c) <==> c == "latest" || MatchesConstraint(version, c)
  {
    SplitWhole(c, ',');
    TrimTwice(c);
    assert [c][1..] == [];
    assert MatchesAll(version, [c]) <==> MatchesConstraint(version, Trim(c));
  }

  /** A range of two comparisons admits exactly what lies between its ends. */
  lemma {:induction false} RangeMeans(p: Printed, low: Printed, high: Printed)
    requires WellFormed(p) && WellFormed(low) && WellFormed(high)
    requires ',' !in Written(low) && ',' !in Written(high)
    ensures MatchesConstraints(Written(p), ">= " + Written(low) + "," + " < " + Written(high)) <==>
            !Older(p, low) && Older(p, high)
  {
    var a, b := ConstraintText("", AtLeast, low, ""), ConstraintText(" ", Below, high, "");
    assert a == ">= " + Written(low) && b == " < " + Written(high);
    assert a[0] != "latest"[0] && b[0] != "latest"[0];
    CommaIntersects(Written(p), a, b);
    OneConstraint(Written(p), a);
    OneConstraint(Written(p), b);
    ConstraintMeans(p, "", AtLeast, low, "");
    ConstraintMeans(p, " ", Below, high, "");
    assert ">= " + Written(low) + "," + " < " + Written(high) == a + "," + b;
  }
}
