/** Which value a run's variable gets: variable sets against workspace variables, and the
    layers of a phase's process environment. */
module Variables {
  import opened Options

  // ---- The order of variable sets ----------------------------------------------------------------

  /** `owned` says that a project owns the set, not the organization. */
  datatype VarSet = VarSet(id: string, name: string, priority: bool, global: bool, owned: bool)

  function CompareCodePoints(a: string, b: string): int {
    if a == "" || b == "" then |a| - |b|
    else if a[0] != b[0] then a[0] as int - b[0] as int
    else CompareCodePoints(a[1..], b[1..])
  }

  function ScopeRank(s: VarSet, workspaceSets: set<string>, projectSets: set<string>): nat {
    var projectScope := s.id !in workspaceSets || (s.priority && s.id in projectSets);
    if s.global then 0 else if !s.owned then (if projectScope then 1 else 2) else if projectScope then 3 else 4
  }

  /** Priority sets reverse the order of scope and ownership. */
  function Rank(s: VarSet, workspaceSets: set<string>, projectSets: set<string>): nat {
    if s.priority then 10 - ScopeRank(s, workspaceSets, projectSets) else ScopeRank(s, workspaceSets, projectSets)
  }

  function CompareSets(l: VarSet, r: VarSet, workspaceSets: set<string>, projectSets: set<string>): int {
    var byRank := Rank(l, workspaceSets, projectSets) - Rank(r, workspaceSets, projectSets);
    if byRank != 0 then byRank
    else if CompareCodePoints(r.name, l.name) != 0 then CompareCodePoints(r.name, l.name)
    else CompareCodePoints(r.id, l.id)
  }

  lemma {:induction false} CodePointsAreOrdered(a: string, b: string, c: string)
    ensures CompareCodePoints(a, b) == 0 <==> a == b
    ensures CompareCodePoints(a, b) < 0 <==> CompareCodePoints(b, a) > 0
    ensures CompareCodePoints(a, b) <= 0 && CompareCodePoints(b, c) <= 0 ==> CompareCodePoints(a, c) <= 0
  {
    if a != "" && b != "" {
      assert a == [a[0]] + a[1..] && b == [b[0]] + b[1..];
      if c != "" {
        CodePointsAreOrdered(a[1..], b[1..], c[1..]);
      } else {
        CodePointsAreOrdered(a[1..], b[1..], c);
      }
    }
  }

  /** Sets with different ids never tie, so every host overlays them in the same order. */
  lemma SetsAreTotallyOrdered(a: VarSet, b: VarSet, c: VarSet, w: set<string>, p: set<string>)
    ensures a.id != b.id ==> CompareSets(a, b, w, p) != 0
    ensures CompareSets(a, a, w, p) == 0
    ensures CompareSets(a, b, w, p) < 0 <==> CompareSets(b, a, w, p) > 0
    ensures CompareSets(a, b, w, p) <= 0 && CompareSets(b, c, w, p) <= 0 ==> CompareSets(a, c, w, p) <= 0
    ensures a.priority && !b.priority ==> CompareSets(a, b, w, p) > 0
  {
    CodePointsAreOrdered(a.name, b.name, c.name);
    CodePointsAreOrdered(a.id, b.id, c.id);
    CodePointsAreOrdered(c.name, b.name, a.name);
    CodePointsAreOrdered(c.id, b.id, a.id);
    CodePointsAreOrdered(b.name, a.name, a.name);
    CodePointsAreOrdered(b.id, a.id, a.id);
    CodePointsAreOrdered(a.name, a.name, a.name);
    CodePointsAreOrdered(a.id, a.id, a.id);
    CodePointsAreOrdered(c.name, a.name, a.name);
    CodePointsAreOrdered(c.id, a.id, a.id);
  }

  /** The strings share their first `n` characters, and there the first one ends or has the lower code point. */
  predicate DiffersAt(a: string, b: string, n: nat) {
    n <= |a| && n < |b| && a[..n] == b[..n] && (n < |a| ==> a[n] < b[n])
  }

  ghost predicate ComesBefore(a: string, b: string) {
    exists n: nat :: DiffersAt(a, b, n)
  }

  /** The comparison of strings is the lexicographic order of their code points. */
  lemma {:induction false} CodePointsCompareExactly(a: string, b: string)
    ensures CompareCodePoints(a, b) < 0 <==> ComesBefore(a, b)
  {
    if a == "" {
      if b != "" { assert DiffersAt(a, b, 0); }
    } else if b != "" {
      if a[0] != b[0] {
        assert a[0] < b[0] ==> DiffersAt(a, b, 0);
        assert forall n: nat :: DiffersAt(a, b, n) && n > 0 ==> a[..n][0] == b[..n][0];
      } else {
        CodePointsCompareExactly(a[1..], b[1..]);
        assert a == [a[0]] + a[1..] && b == [b[0]] + b[1..];
        forall n: nat | DiffersAt(a[1..], b[1..], n) ensures DiffersAt(a, b, n + 1) {
          assert a[..n + 1] == [a[0]] + a[1..][..n] && b[..n + 1] == [b[0]] + b[1..][..n];
        }
        forall n: nat | DiffersAt(a, b, n) ensures n > 0 && DiffersAt(a[1..], b[1..], n - 1) {
          assert a[1..][..n - 1] == a[..n][1..] && b[1..][..n - 1] == b[..n][1..];
        }
        if ComesBefore(a[1..], b[1..]) {
          var n: nat :| DiffersAt(a[1..], b[1..], n);
          assert DiffersAt(a, b, n + 1);
        }
      }
    }
  }

  /** The set reaches the workspace through its project; a set that is not global is attached to
      the project, to the workspace, or owned by the project. */
  predicate ThroughProject(s: VarSet, workspaceSets: set<string>, projectSets: set<string>) {
    s.id !in workspaceSets || (s.priority && s.id in projectSets)
  }

  /** The second set is meant for fewer workspaces: global sets are the widest, then those of the
      organization, then those of the project; of one owner's, those of a project. */
  predicate Narrower(l: VarSet, r: VarSet, workspaceSets: set<string>, projectSets: set<string>) {
    if l.global || r.global then l.global && !r.global
    else if l.owned != r.owned then r.owned
    else ThroughProject(l, workspaceSets, projectSets) && !ThroughProject(r, workspaceSets, projectSets)
  }

  /** The first set's values are overlaid by the second's. */
  ghost predicate Yields(l: VarSet, r: VarSet, w: set<string>, p: set<string>) {
    if l.priority != r.priority then r.priority
    else if Narrower(l, r, w, p) then !l.priority
    else if Narrower(r, l, w, p) then l.priority
    else if l.name != r.name then ComesBefore(r.name, l.name)
    else ComesBefore(r.id, l.id)
  }

  /** A set is overlaid by any priority set if it is none, and within its kind by a set with a
      narrower scope, a priority set by one with a wider scope; of two with the same scope, by
      the one whose name, and then whose id, comes first. */
  lemma {:induction false} SetsCompareByPrecedence(l: VarSet, r: VarSet, w: set<string>, p: set<string>)
    ensures CompareSets(l, r, w, p) < 0 <==> Yields(l, r, w, p)
  {
    CodePointsCompareExactly(r.name, l.name);
    CodePointsCompareExactly(r.id, l.id);
    CodePointsAreOrdered(r.name, l.name, l.name);
    CodePointsAreOrdered(r.id, l.id, l.id);
  }

  // ---- Execution variables -------------------------------------------------------------------------

  datatype Key = Key(category: string, name: string)

  datatype Variable = Variable(category: string, key: string, value: string, hcl: bool, priority: bool, sensitive: bool)

  datatype SetEntry = SetEntry(owner: VarSet, id: string, variable: Variable)

  function KeyOf(v: Variable): Key {
    Key(v.category, v.key)
  }

  /** The last variable of a list with this key. */
  function Last(vars: seq<Variable>, k: Key): Option<Variable> {
    if vars == [] then None
    else if KeyOf(vars[|vars| - 1]) == k then Some(vars[|vars| - 1])
    else Last(vars[..|vars| - 1], k)
  }

  /** The variables of the priority sets, or of the others, marked as such. */
  function FromSets(entries: seq<SetEntry>, priority: bool): seq<Variable> {
    if entries == [] then []
    else
      var before := FromSets(entries[..|entries| - 1], priority);
      var last := entries[|entries| - 1];
      if last.owner.priority == priority then before + [last.variable.(priority := priority)] else before
  }

  function Unmarked(vars: seq<Variable>): seq<Variable> {
    seq(|vars|, i requires 0 <= i < |vars| => vars[i].(priority := false))
  }

  /** A priority set's entry, else the workspace's variable, else an ordinary set's entry. */
  function Effective(entries: seq<SetEntry>, workspaceVars: seq<Variable>, k: Key): Option<Variable> {
    OrElse(Last(FromSets(entries, true), k),
           OrElse(Last(Unmarked(workspaceVars), k), Last(FromSets(entries, false), k)))
  }

  function Lookup(m: map<Key, Variable>, k: Key): Option<Variable> {
    if k in m then Some(m[k]) else None
  }

  predicate Distinct(keys: seq<Key>) {
    forall i, j :: 0 <= i < j < |keys| ==> keys[i] != keys[j]
  }

  /** One overlay loop over a map that remembers the order of first insertion. */
  method Overlay(effective: map<Key, Variable>, keys: seq<Key>, vars: seq<Variable>)
    returns (effective2: map<Key, Variable>, keys2: seq<Key>)
    requires Distinct(keys) && (forall k :: k in keys <==> k in effective) &&
      (forall k :: k in effective ==> KeyOf(effective[k]) == k)
    ensures Distinct(keys2) && (forall k :: k in keys2 <==> k in effective2) &&
      (forall k :: k in effective2 ==> KeyOf(effective2[k]) == k)
    ensures keys <= keys2
    ensures forall k :: Lookup(effective2, k) == OrElse(Last(vars, k), Lookup(effective, k))
  {
    effective2, keys2 := effective, keys;
    var i := 0;
    while i < |vars|
      invariant 0 <= i <= |vars| && keys <= keys2 && Distinct(keys2)
      invariant (forall k :: k in keys2 <==> k in effective2) &&
        (forall k :: k in effective2 ==> KeyOf(effective2[k]) == k)
      invariant forall k :: Lookup(effective2, k) == OrElse(Last(vars[..i], k), Lookup(effective, k))
    {
      var k := KeyOf(vars[i]);
      assert vars[..i + 1][..i] == vars[..i] && vars[..i + 1][i] == vars[i];
      if k !in effective2 { keys2 := keys2 + [k]; }
      effective2 := effective2[k := vars[i]];
      i := i + 1;
    }
    assert vars[..i] == vars;
  }

  /** The three loops give every key its effective variable, once. */
  method ExecutionVariables(entries: seq<SetEntry>, workspaceVars: seq<Variable>) returns (vars: seq<Variable>)
    ensures forall i, j :: 0 <= i < j < |vars| ==> KeyOf(vars[i]) != KeyOf(vars[j])
    ensures forall v :: v in vars <==> Effective(entries, workspaceVars, KeyOf(v)) == Some(v)
  {
    var effective, keys := Overlay(map[], [], FromSets(entries, false));
    effective, keys := Overlay(effective, keys, Unmarked(workspaceVars));
    effective, keys := Overlay(effective, keys, FromSets(entries, true));
    assert forall k :: Lookup(effective, k) == Effective(entries, workspaceVars, k);
    vars := seq(|keys|, i requires 0 <= i < |keys| => effective[keys[i]]);
    forall v ensures v in vars <==> Lookup(effective, KeyOf(v)) == Some(v) {
      if Lookup(effective, KeyOf(v)) == Some(v) {
        var i :| 0 <= i < |keys| && keys[i] == KeyOf(v);
        assert vars[i] == v;
      }
    }
  }

  ghost predicate InOrder(entries: seq<SetEntry>, w: set<string>, p: set<string>) {
    forall i, j :: 0 <= i < j < |entries| ==>
      var c := CompareSets(entries[i].owner, entries[j].owner, w, p);
      c < 0 || (c == 0 && CompareCodePoints(entries[i].id, entries[j].id) <= 0)
  }

  lemma {:induction false} LastFromSets(entries: seq<SetEntry>, priority: bool, k: Key) returns (n: nat)
    requires Last(FromSets(entries, priority), k).Some?
    ensures n < |entries| && entries[n].owner.priority == priority && KeyOf(entries[n].variable) == k
    ensures Last(FromSets(entries, priority), k) == Some(entries[n].variable.(priority := priority))
    ensures forall i :: n < i < |entries| && entries[i].owner.priority == priority ==> KeyOf(entries[i].variable) != k
  {
    var last := entries[|entries| - 1];
    var before := FromSets(entries[..|entries| - 1], priority);
    if last.owner.priority == priority {
      assert FromSets(entries, priority)[..|before|] == before;
      if KeyOf(last.variable) == k { return |entries| - 1; }
    }
    n := LastFromSets(entries[..|entries| - 1], priority, k);
  }

  /** With the entries overlaid in set order, the set that wins among those of its kind is the
      highest that has the key. */
  lemma WinningSetIsHighest(entries: seq<SetEntry>, priority: bool, k: Key, w: set<string>, p: set<string>)
    returns (winner: SetEntry)
    requires InOrder(entries, w, p) && Last(FromSets(entries, priority), k).Some?
    ensures winner in entries && Last(FromSets(entries, priority), k) == Some(winner.variable.(priority := priority))
    ensures winner.owner.priority == priority && KeyOf(winner.variable) == k
    ensures forall e :: e in entries && e.owner.priority == priority && KeyOf(e.variable) == k ==>
              CompareSets(e.owner, winner.owner, w, p) <= 0 && !Yields(winner.owner, e.owner, w, p)
    ensures forall e :: e in entries && e.owner == winner.owner && KeyOf(e.variable) == k ==>
              CompareCodePoints(e.id, winner.id) <= 0
  {
    var n := LastFromSets(entries, priority, k);
    winner := entries[n];
    forall e | e in entries && e.owner.priority == priority && KeyOf(e.variable) == k
      ensures CompareSets(e.owner, winner.owner, w, p) <= 0 && !Yields(winner.owner, e.owner, w, p)
    {
      var i :| 0 <= i < |entries| && entries[i] == e;
      SetsAreTotallyOrdered(e.owner, winner.owner, winner.owner, w, p);
      SetsAreTotallyOrdered(winner.owner, e.owner, e.owner, w, p);
      SetsCompareByPrecedence(winner.owner, e.owner, w, p);
    }
    forall e | e in entries && e.owner == winner.owner && KeyOf(e.variable) == k
      ensures CompareCodePoints(e.id, winner.id) <= 0
    {
      var i :| 0 <= i < |entries| && entries[i] == e;
      SetsAreTotallyOrdered(e.owner, e.owner, e.owner, w, p);
      CodePointsAreOrdered(e.id, e.id, e.id);
    }
  }

  lemma {:induction false} NoneFromSets(entries: seq<SetEntry>, priority: bool, k: Key)
    ensures Last(FromSets(entries, priority), k).None? <==>
            forall e :: e in entries && e.owner.priority == priority ==> KeyOf(e.variable) != k
  {
    if entries != [] {
      var before := entries[..|entries| - 1];
      NoneFromSets(before, priority, k);
      var last := entries[|entries| - 1];
      assert entries == before + [last];
      if last.owner.priority == priority {
        var marked := last.variable.(priority := priority);
        assert (FromSets(before, priority) + [marked])[..|FromSets(before, priority)|] == FromSets(before, priority);
      }
    }
  }

  lemma {:induction false} LastUnmarked(vars: seq<Variable>, k: Key)
    ensures Last(Unmarked(vars), k) ==
            match Last(vars, k) case None => None case Some(v) => Some(v.(priority := false))
  {
    if vars != [] {
      assert Unmarked(vars)[..|vars| - 1] == Unmarked(vars[..|vars| - 1]);
      LastUnmarked(vars[..|vars| - 1], k);
    }
  }

  /** The entry of a set that is highest among those of its kind with the key. */
  ghost predicate Highest(entries: seq<SetEntry>, e: SetEntry, priority: bool, k: Key, w: set<string>, p: set<string>) {
    && e in entries && e.owner.priority == priority && KeyOf(e.variable) == k
    && (forall f :: f in entries && f.owner.priority == priority && KeyOf(f.variable) == k ==>
          !Yields(e.owner, f.owner, w, p))
  }

  /** Some set of the kind has the key. */
  predicate Offers(entries: seq<SetEntry>, priority: bool, k: Key) {
    exists e | e in entries :: e.owner.priority == priority && KeyOf(e.variable) == k
  }

  /** Where a key's value comes from: the highest priority set that has it; if none does, the
      workspace's own variable; failing that, the highest ordinary set. Only a priority set's
      value is marked as such. */
  lemma {:induction false} EffectiveMeans(entries: seq<SetEntry>, workspaceVars: seq<Variable>, k: Key, w: set<string>,
                                          p: set<string>)
    returns (from: Option<SetEntry>)
    requires InOrder(entries, w, p)
    ensures Offers(entries, true, k) ==>
      && from.Some? && Highest(entries, from.value, true, k, w, p)
      && Effective(entries, workspaceVars, k) == Some(from.value.variable.(priority := true))
    ensures !Offers(entries, true, k) && Last(workspaceVars, k).Some? ==>
      Effective(entries, workspaceVars, k) == Some(Last(workspaceVars, k).value.(priority := false))
    ensures !Offers(entries, true, k) && Last(workspaceVars, k).None? && Offers(entries, false, k) ==>
      && from.Some? && Highest(entries, from.value, false, k, w, p)
      && Effective(entries, workspaceVars, k) == Some(from.value.variable.(priority := false))
    ensures !Offers(entries, true, k) && Last(workspaceVars, k).None? && !Offers(entries, false, k) ==>
      Effective(entries, workspaceVars, k).None?
  {
    NoneFromSets(entries, true, k);
    NoneFromSets(entries, false, k);
    LastUnmarked(workspaceVars, k);
    from := None;
    if Offers(entries, true, k) {
      var winner := WinningSetIsHighest(entries, true, k, w, p);
      from := Some(winner);
    } else if Offers(entries, false, k) {
      var winner := WinningSetIsHighest(entries, false, k, w, p);
      from := Some(winner);
    }
  }

  /** The last of the variables with the key. */
  lemma {:induction false} LastMeans(vars: seq<Variable>, k: Key)
    ensures match Last(vars, k)
      case None => forall i :: 0 <= i < |vars| ==> KeyOf(vars[i]) != k
      case Some(v) =>
        exists i :: 0 <= i < |vars| && vars[i] == v && KeyOf(v) == k
          && forall j :: i < j < |vars| ==> KeyOf(vars[j]) != k
  {
    if vars != [] {
      var n := |vars| - 1;
      LastMeans(vars[..n], k);
      assert KeyOf(vars[n]) != k ==> forall i :: 0 <= i < n ==> vars[..n][i] == vars[i];
    }
  }

  // ---- The environment of a phase --------------------------------------------------------------------

  const ALLOWED := ["PATH", "HOME", "TMPDIR", "USER", "LANG", "LC_ALL", "SHELL"]
  const PROTECTED := ["PATH", "LD_PRELOAD", "LD_LIBRARY_PATH", "BASH_ENV", "TF_CLI_CONFIG_FILE",
                      "DYLD_INSERT_LIBRARIES"]

  function Upper(s: string): (u: string)
    ensures |u| == |s|
  {
    seq(|s|, i requires 0 <= i < |s| => if 'a' <= s[i] <= 'z' then (s[i] as int - 32) as char else s[i])
  }

  /** The name a variable sets in the environment, if any. */
  function Writes(v: Variable): Option<string> {
    if Upper(v.key) in PROTECTED then None
    else if v.category == "env" then Some(v.key)
    else if v.category == "terraform" && v.sensitive then Some("TF_VAR_" + v.key)
    else None
  }

  /** The key is the name, except that letters may be small. */
  predicate SpellsOut(key: string, name: string) {
    |key| == |name| &&
    forall i | 0 <= i < |name| ::
      key[i] == name[i] || ('A' <= name[i] <= 'Z' && key[i] as int == name[i] as int + 'a' as int - 'A' as int)
  }

  lemma UpperSpells(key: string, name: string)
    requires forall i :: 0 <= i < |name| ==> !('a' <= name[i] <= 'z')
    ensures Upper(key) == name <==> SpellsOut(key, name)
  {
    if SpellsOut(key, name) {
      assert forall i :: 0 <= i < |name| ==> Upper(key)[i] == name[i];
    } else if |key| == |name| {
      var i :| 0 <= i < |name| &&
        key[i] != name[i] && !('A' <= name[i] <= 'Z' && key[i] as int == name[i] as int + 'a' as int - 'A' as int);
      assert Upper(key)[i] != name[i];
    }
  }

  /** An environment variable sets its own name, a sensitive Terraform variable the name that
      Terraform looks for; nothing sets a name whose key spells a protected one. */
  lemma {:induction false} WritesExactly(v: Variable, name: string)
    ensures Writes(v) == Some(name) <==>
            && (forall q :: q in PROTECTED ==> !SpellsOut(v.key, q))
            && ((v.category == "env" && name == v.key) ||
                (v.category == "terraform" && v.sensitive && name == "TF_VAR_" + v.key))
  {
    forall q | q in PROTECTED ensures Upper(v.key) == q <==> SpellsOut(v.key, q) { UpperSpells(v.key, q); }
    assert "env" != "terraform" by { assert |"env"| != |"terraform"|; }
  }

  /** The last value written for a name. */
  function LastWritten(vars: seq<Variable>, name: string): Option<string> {
    if vars == [] then None
    else if Writes(vars[|vars| - 1]) == Some(name) then Some(vars[|vars| - 1].value)
    else LastWritten(vars[..|vars| - 1], name)
  }

  function EnvOf(env: map<string, string>, name: string): Option<string> {
    if name in env then Some(env[name]) else None
  }

  /** What the worker's own process passes on. */
  function Inherited(process: map<string, string>, name: string): Option<string> {
    if name in ALLOWED && name in process && process[name] != "" then Some(process[name]) else None
  }

  method BuildSanitizedEnv(process: map<string, string>, vars: seq<Variable>, extra: map<string, string>)
    returns (env: map<string, string>)
    ensures forall name ::
      EnvOf(env, name) == OrElse(EnvOf(extra, name), OrElse(LastWritten(vars, name), Inherited(process, name)))
  {
    env := map[];
    var i := 0;
    while i < |ALLOWED|
      invariant 0 <= i <= |ALLOWED|
      invariant forall name :: EnvOf(env, name) == if name in ALLOWED[..i] then Inherited(process, name) else None
    {
      assert ALLOWED[..i + 1] == ALLOWED[..i] + [ALLOWED[i]];
      if ALLOWED[i] in process && process[ALLOWED[i]] != "" { env := env[ALLOWED[i] := process[ALLOWED[i]]]; }
      i := i + 1;
    }
    assert ALLOWED[..i] == ALLOWED;
    ghost var inherited := env;
    i := 0;
    while i < |vars|
      invariant 0 <= i <= |vars|
      invariant forall name :: EnvOf(env, name) == OrElse(LastWritten(vars[..i], name), EnvOf(inherited, name))
    {
      assert vars[..i + 1][..i] == vars[..i] && vars[..i + 1][i] == vars[i];
      var name := Writes(vars[i]);
      if name.Some? { env := env[name.value := vars[i].value]; }
      i := i + 1;
    }
    assert vars[..i] == vars;
    env := env + extra;
  }

  function WithPriority(vars: seq<Variable>): seq<Variable> {
    if vars == [] then [] else (if vars[0].priority then [vars[0]] else []) + WithPriority(vars[1..])
  }

  function ForEnv(vars: seq<Variable>): seq<Variable> {
    if vars == [] then [] else (if vars[0].category == "env" then [vars[0]] else []) + ForEnv(vars[1..])
  }

  lemma {:induction false} LastWrittenJoins(a: seq<Variable>, b: seq<Variable>, name: string)
    ensures LastWritten(a + b, name) == OrElse(LastWritten(b, name), LastWritten(a, name))
    decreases |b|
  {
    if b == [] {
      assert a + b == a;
    } else {
      assert (a + b)[..|a + b| - 1] == a + b[..|b| - 1];
      LastWrittenJoins(a, b[..|b| - 1], name);
    }
  }

  /** The variables that make up a layer: all, those of the environment, those of priority sets. */
  datatype Layer = All | EnvironmentOnly | PriorityOnly

  predicate InLayer(v: Variable, layer: Layer) {
    match layer
    case All => true
    case EnvironmentOnly => v.category == "env"
    case PriorityOnly => v.priority
  }

  function LayerOf(vars: seq<Variable>, layer: Layer): seq<Variable> {
    match layer
    case All => vars
    case EnvironmentOnly => ForEnv(vars)
    case PriorityOnly => WithPriority(vars)
  }

  predicate Sets(v: Variable, layer: Layer, name: string) {
    InLayer(v, layer) && Writes(v) == Some(name)
  }

  lemma {:induction false} LayerGrows(vars: seq<Variable>, v: Variable, layer: Layer)
    ensures LayerOf(vars + [v], layer) == LayerOf(vars, layer) + if InLayer(v, layer) then [v] else []
  {
    if vars == [] {
      assert [v][1..] == [] && [] + [v] == [v];
    } else {
      assert (vars + [v])[1..] == vars[1..] + [v];
      LayerGrows(vars[1..], v, layer);
    }
  }

  /** A layer's value for a name is that of its last variable that sets the name. */
  lemma {:induction false} LayerMeans(vars: seq<Variable>, layer: Layer, name: string)
    ensures match LastWritten(LayerOf(vars, layer), name)
      case None => forall i :: 0 <= i < |vars| ==> !Sets(vars[i], layer, name)
      case Some(x) =>
        exists i :: 0 <= i < |vars| && Sets(vars[i], layer, name) && vars[i].value == x
          && forall j :: i < j < |vars| ==> !Sets(vars[j], layer, name)
  {
    if vars != [] {
      var n := |vars| - 1;
      var before, v := vars[..n], vars[n];
      assert vars == before + [v];
      LayerGrows(before, v, layer);
      LayerMeans(before, layer, name);
      var layered := LayerOf(vars, layer);
      if InLayer(v, layer) {
        assert layered[..|layered| - 1] == LayerOf(before, layer) && layered[|layered| - 1] == v;
      } else {
        assert layered == LayerOf(before, layer);
      }
      if !Sets(v, layer, name) {
        assert LastWritten(layered, name) == LastWritten(LayerOf(before, layer), name);
        assert forall i :: 0 <= i < n ==> before[i] == vars[i];
      }
    }
  }

  /** No variable, in any spelling, sets a protected name. */
  lemma {:induction false} ProtectedIsNeverWritten(vars: seq<Variable>, name: string)
    requires name in PROTECTED
    ensures LastWritten(vars, name).None?
  {
    assert Upper(name) == name;
    if vars != [] {
      var v := vars[|vars| - 1];
      if v.category != "env" && Writes(v).Some? { assert Writes(v).value[..3] == "TF_" && Writes(v).value[3] == 'V'; }
      ProtectedIsNeverWritten(vars[..|vars| - 1], name);
    }
  }

  /** What loaders and shells run at a process's start never comes from the worker's own process
      and from no variable: only the phase sets it. */
  lemma LoadersAreNotInherited(process: map<string, string>, vars: seq<Variable>, name: string)
    requires name in ["LD_PRELOAD", "LD_LIBRARY_PATH", "DYLD_INSERT_LIBRARIES", "BASH_ENV", "TF_CLI_CONFIG_FILE"]
    ensures Inherited(process, name).None? && LastWritten(vars, name).None?
  {
    ProtectedIsNeverWritten(vars, name);
  }

  /** A name comes from the highest layer that sets it: phase, priority sets, run, workspace,
      the worker's process. */
  method BuildRunPhaseEnv(process: map<string, string>, workspaceVars: seq<Variable>, runVars: seq<Variable>,
                          phase: map<string, string>)
    returns (env: map<string, string>)
    ensures forall name :: EnvOf(env, name) ==
              OrElse(EnvOf(phase, name),
              OrElse(LastWritten(WithPriority(workspaceVars), name),
              OrElse(LastWritten(ForEnv(runVars), name),
              OrElse(LastWritten(workspaceVars, name), Inherited(process, name)))))
    ensures forall name :: name in PROTECTED ==>
      EnvOf(env, name) == OrElse(EnvOf(phase, name), Inherited(process, name))
  {
    var inputs := workspaceVars + ForEnv(runVars) + WithPriority(workspaceVars);
    env := BuildSanitizedEnv(process, inputs, phase);
    forall name ensures LastWritten(inputs, name) ==
        OrElse(LastWritten(WithPriority(workspaceVars), name),
               OrElse(LastWritten(ForEnv(runVars), name), LastWritten(workspaceVars, name)))
    {
      LastWrittenJoins(workspaceVars + ForEnv(runVars), WithPriority(workspaceVars), name);
      LastWrittenJoins(workspaceVars, ForEnv(runVars), name);
    }
    forall name | name in PROTECTED ensures LastWritten(inputs, name).None? { ProtectedIsNeverWritten(inputs, name); }
  }
}
