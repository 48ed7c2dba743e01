/**
 Resource rules of a connection policy: which rule governs a target, and what that means for a
 permitted SQL query.
 */
module PolicyRules {
  import opened Options
  import opened SqlSyntax
  import opened SqlScope
  import SqlAnalyzer
  import SqlNames
  import SqlSemantics

  datatype Rule = Rule(pattern: string, allowRead: bool)

  datatype Egress = LocalOnly | CloudAllowed | CloudAllowedMasked

  datatype Policy = Policy(enabled: bool, egress: Egress, rules: seq<Rule>)

  /** Glob matching is a library matter: any relation between patterns and targets will do. */
  type Matcher = (string, string) -> bool

  // ---------------------------------------------------------------- specificity of a pattern

  datatype Score = Score(exact: bool, literals: nat, prefix: nat, wildcards: nat)
  {
    /** Lexicographic; fewer wildcards is better in the last place. */
    predicate Beats(other: Score) {
      if exact != other.exact then exact
      else if literals != other.literals then literals > other.literals
      else if prefix != other.prefix then prefix > other.prefix
      else wildcards < other.wildcards
    }
  }

  datatype Scan = Scan(literals: nat, prefix: nat, wildcards: nat, escaped: bool, inClass: bool)
  {
    function Literal(): Scan {
      this.(literals := literals + 1, prefix := if wildcards == 0 then prefix + 1 else prefix)
    }

    function Next(c: char): Scan {
      if escaped then Literal().(escaped := false)
      else if c == '\\' then this.(escaped := true)
      else if inClass then this.(inClass := c != ']')
      else if c == '*' || c == '?' || c == '{' then this.(wildcards := wildcards + 1)
      else if c == '[' then this.(wildcards := wildcards + 1, inClass := true)
      else if c == '}' || c == ',' then this
      else Literal()
    }
  }

  function Scanned(pattern: string): Scan {
    if pattern == [] then Scan(0, 0, 0, false, false)
    else Scanned(pattern[..|pattern| - 1]).Next(pattern[|pattern| - 1])
  }

  function Specificity(pattern: string): Score {
    var s := Scanned(pattern);
    var t := if s.escaped then s.Literal() else s;
    Score(t.wildcards == 0, t.literals, t.prefix, t.wildcards)
  }

  method ResourcePatternSpecificity(pattern: string) returns (score: Score)
    ensures score == Specificity(pattern)
  {
    var literals, prefix, wildcards: nat := 0, 0, 0;
    var escaped, inClass, sawWildcard := false, false, false;
    var i := 0;
    while i < |pattern|
      invariant 0 <= i <= |pattern|
      invariant Scan(literals, prefix, wildcards, escaped, inClass) == Scanned(pattern[..i])
      invariant sawWildcard == (wildcards > 0)
    {
      var c := pattern[i];
      assert pattern[..i + 1][..i] == pattern[..i];
      i := i + 1;
      if escaped {
        literals := literals + 1;
        if !sawWildcard { prefix := prefix + 1; }
        escaped := false;
        continue;
      }
      if c == '\\' { escaped := true; continue; }
      if inClass {
        if c == ']' { inClass := false; }
        continue;
      }
      if c == '*' || c == '?' || c == '{' {
        wildcards, sawWildcard := wildcards + 1, true;
      } else if c == '[' {
        wildcards, sawWildcard, inClass := wildcards + 1, true, true;
      } else if c == '}' || c == ',' {
      } else {
        literals := literals + 1;
        if !sawWildcard { prefix := prefix + 1; }
      }
    }
    assert pattern[..i] == pattern;
    if escaped {
      literals := literals + 1;
      if !sawWildcard { prefix := prefix + 1; }
    }
    score := Score(wildcards == 0, literals, prefix, wildcards);
  }

  const SPECIAL: set<char> := {'\\', '*', '?', '{', '}', '[', ',' }

  lemma {:induction false} ScanBounds(pattern: string)
    ensures Scanned(pattern).prefix <= Scanned(pattern).literals
    ensures Scanned(pattern).literals + (if Scanned(pattern).escaped then 1 else 0) <= |pattern|
    ensures Scanned(pattern).wildcards == 0 ==>
      Scanned(pattern).prefix == Scanned(pattern).literals && !Scanned(pattern).inClass
    ensures (forall i :: 0 <= i < |pattern| ==> pattern[i] !in SPECIAL) ==>
      Scanned(pattern) == Scan(|pattern|, |pattern|, 0, false, false)
  {
    if pattern != [] { ScanBounds(pattern[..|pattern| - 1]); }
  }

  /** A pattern free of glob syntax beats every pattern with a wildcard, whatever its length. */
  lemma LiteralBeatsWildcard(literal: string, other: string)
    requires forall i :: 0 <= i < |literal| ==> literal[i] !in SPECIAL
    requires Specificity(other).wildcards > 0
    ensures Specificity(literal) == Score(true, |literal|, |literal|, 0)
    ensures Specificity(literal).Beats(Specificity(other))
    ensures Specificity(other).prefix <= Specificity(other).literals <= |other|
  {
    ScanBounds(literal);
    ScanBounds(other);
  }

  /** Scores are ordered by exactness, then literals, then prefix, then fewer wildcards; the order is strict. */
  lemma ScoreOrder(a: Score, b: Score)
    ensures a.exact && !b.exact ==> a.Beats(b)
    ensures a.exact == b.exact && a.literals > b.literals ==> a.Beats(b)
    ensures a.exact == b.exact && a.literals == b.literals && a.prefix > b.prefix ==> a.Beats(b)
    ensures a.exact == b.exact && a.literals == b.literals && a.prefix == b.prefix && a.wildcards < b.wildcards ==>
      a.Beats(b)
    ensures a.Beats(b) ==> !b.Beats(a) && a != b
    ensures a != b ==> a.Beats(b) || b.Beats(a)
  {
  }

  function CountIn(pattern: string, chars: string): nat {
    if pattern == [] then 0
    else CountIn(pattern[..|pattern| - 1], chars) + (if pattern[|pattern| - 1] in chars then 1 else 0)
  }

  /** Without escapes and classes: `*`, `?` and `{` are wildcards, `}` and `,` are nothing, all else is literal. */
  lemma {:induction false} PlainCounts(pattern: string)
    requires '\\' !in pattern && '[' !in pattern
    ensures var s := Scanned(pattern);
      && !s.escaped && !s.inClass
      && s.wildcards == CountIn(pattern, "*?{")
      && s.literals == |pattern| - CountIn(pattern, "*?{},")
  {
    if pattern != [] { PlainCounts(pattern[..|pattern| - 1]); }
  }

  /** A backslash makes the next character one literal, and outside a class a bracket opens one wildcard. */
  lemma EscapesAndClasses(pattern: string, c: char)
    requires !Scanned(pattern).escaped
    ensures var s, escaped := Scanned(pattern), Scanned(pattern + ['\\'] + [c]);
      && escaped.literals == s.literals + 1 && escaped.wildcards == s.wildcards
      && !escaped.escaped && escaped.inClass == s.inClass
    ensures var s, inside := Scanned(pattern), Scanned(pattern + ['[']);
      !s.inClass ==> inside.wildcards == s.wildcards + 1 && inside.literals == s.literals && inside.inClass
  {
    assert (pattern + ['\\'] + [c])[..|pattern| + 1] == pattern + ['\\'];
    assert (pattern + ['\\'])[..|pattern|] == pattern && (pattern + ['['])[..|pattern|] == pattern;
  }

  /** Every literal counts into the prefix up to the first wildcard, and none after it. */
  lemma {:induction false} PrefixEndsAtWildcard(pattern: string, rest: string)
    ensures Scanned(pattern).wildcards == 0 ==> Scanned(pattern).prefix == Scanned(pattern).literals
    ensures Scanned(pattern).wildcards > 0 ==>
      && Scanned(pattern + rest).prefix == Scanned(pattern).prefix
      && Scanned(pattern + rest).wildcards >= Scanned(pattern).wildcards
    decreases |rest|
  {
    ScanBounds(pattern);
    if rest == [] {
      assert pattern + rest == pattern;
    } else {
      PrefixEndsAtWildcard(pattern, rest[..|rest| - 1]);
      assert (pattern + rest)[..|pattern + rest| - 1] == pattern + rest[..|rest| - 1];
    }
  }

  /** Inside a class nothing is counted, and a bracket closes it. */
  lemma InsideClass(pattern: string, c: char)
    requires !Scanned(pattern).escaped && Scanned(pattern).inClass && c != '\\'
    ensures var s, next := Scanned(pattern), Scanned(pattern + [c]);
      && next.literals == s.literals && next.wildcards == s.wildcards && next.prefix == s.prefix
      && (next.inClass <==> c != ']')
  {
    assert (pattern + [c])[..|pattern|] == pattern;
  }

  // ---------------------------------------------------------------- the governing rule

  predicate Applies(rule: Rule, target: string, matches: Matcher) { matches(rule.pattern, target) }

  /** Rule i governs the target: it matches, no match beats it, and no earlier match equals it. */
  ghost predicate Governs(rules: seq<Rule>, target: string, matches: Matcher, i: nat) {
    && i < |rules| && Applies(rules[i], target, matches)
    && forall j :: 0 <= j < |rules| && Applies(rules[j], target, matches) ==>
         && !Specificity(rules[j].pattern).Beats(Specificity(rules[i].pattern))
         && (j < i ==> Specificity(rules[i].pattern).Beats(Specificity(rules[j].pattern)))
  }

  ghost predicate Ungoverned(rules: seq<Rule>, target: string, matches: Matcher) {
    forall j :: 0 <= j < |rules| ==> !Applies(rules[j], target, matches)
  }

  lemma OneGoverningRule(rules: seq<Rule>, target: string, matches: Matcher, i: nat, k: nat)
    requires Governs(rules, target, matches, i) && Governs(rules, target, matches, k)
    ensures i == k
  {}

  method MatchingResourceRule(rules: seq<Rule>, target: string, matches: Matcher) returns (selected: Option<nat>)
    ensures selected.None? <==> Ungoverned(rules, target, matches)
    ensures selected.Some? ==> Governs(rules, target, matches, selected.value)
  {
    selected := None;
    var selectedScore := Score(false, 0, 0, 0);
    var i := 0;
    while i < |rules|
      invariant 0 <= i <= |rules|
      invariant selected.None? <==> Ungoverned(rules[..i], target, matches)
      invariant selected.Some? ==> selected.value < i && selectedScore == Specificity(rules[selected.value].pattern)
      invariant selected.Some? ==> Governs(rules[..i], target, matches, selected.value)
    {
      if Applies(rules[i], target, matches) {
        var score := ResourcePatternSpecificity(rules[i].pattern);
        if selected.None? || score.Beats(selectedScore) {
          selected, selectedScore := Some(i), score;
        }
      }
      assert rules[..i + 1] == rules[..i] + [rules[i]];
      i := i + 1;
    }
    assert rules[..i] == rules;
  }

  // ---------------------------------------------------------------- permitted SQL queries

  ghost predicate ReadPermitted(policy: Policy, target: string, matches: Matcher) {
    if Ungoverned(policy.rules, target, matches) then policy.rules == []
    else exists i: nat :: Governs(policy.rules, target, matches, i) && policy.rules[i].allowRead
  }

  datatype QueryDecision = Denied | Invalid | Permitted(resources: set<string>)

  /** A read-only query with a SELECT in it. */
  ghost predicate Acceptable(q: Query) {
    (exists b :: b in SqlAnalyzer.Branches(q.body) && b.Select?) && OkQuery(q)
  }

  method EvaluateSqlQuery(policy: Policy, q: Query, sem: Semantics, matches: Matcher) returns (d: QueryDecision)
    ensures d.Permitted? <==>
      && policy.enabled && policy.egress != CloudAllowedMasked
      && Acceptable(q)
      && forall r :: r in FreeQuery(q, {}, sem) ==> ReadPermitted(policy, r, matches)
    ensures d.Permitted? ==> d.resources == FreeQuery(q, {}, sem)
    ensures d.Permitted? ==> SqlNames.AllNamedIn(SqlNames.NamesInQuery(q), sem, d.resources)
    ensures d.Invalid? <==> policy.enabled && policy.egress != CloudAllowedMasked && !Acceptable(q)
  {
    if !policy.enabled || policy.egress == CloudAllowedMasked { return Denied; }
    var analysed := SqlAnalyzer.AnalyzeParsedSqlQuery(q, sem);
    if analysed.None? { return Invalid; }
    var pending := analysed.value;
    while pending != {}
      invariant pending <= analysed.value
      invariant forall r :: r in analysed.value - pending ==> ReadPermitted(policy, r, matches)
      decreases |pending|
    {
      var resource :| resource in pending;
      var rule := MatchingResourceRule(policy.rules, resource, matches);
      var allowed := if rule.None? then policy.rules == [] else policy.rules[rule.value].allowRead;
      if !allowed {
        assert !ReadPermitted(policy, resource, matches) by {
          forall i: nat | Governs(policy.rules, resource, matches, i) ensures !policy.rules[i].allowRead {
            OneGoverningRule(policy.rules, resource, matches, i, rule.value);
          }
        }
        return Denied;
      }
      pending := pending - {resource};
    }
    return Permitted(analysed.value);
  }

  /**
   A permitted query's result cannot depend on a relation whose governing rule denies reading:
   replacing the contents of every such relation leaves the result unchanged.
   */
  lemma PermittedQueryIsConfined(policy: Policy, q: Query, matches: Matcher, w1: SqlSemantics.World,
    w2: SqlSemantics.World)
    requires OkQuery(q)
    requires forall r :: r in FreeQuery(q, {}, w1.sem) ==> ReadPermitted(policy, r, matches)
    requires SqlSemantics.Twins(w1, w2)
    requires forall parts: seq<string> ::
      SafeParts(parts) && ReadPermitted(policy, Dotted(parts), matches) ==>
        SqlSemantics.Stored(w1.data, parts) == SqlSemantics.Stored(w2.data, parts)
    ensures SqlSemantics.EvalQuery(q, w1, map[], []) == SqlSemantics.EvalQuery(q, w2, map[], [])
  {
    var none: SqlSemantics.Environment := map[];
    assert none.Keys == {};
    SqlSemantics.SameQuery(q, w1, w2, none, []);
  }
}
