// pkg/archive/terraformignore.go: reading rules from the lines of an ignore file, deciding a path by the
// last rule that matches, and what lines with plain names mean for paths.
module IgnoreRules {
  import opened Common
  import opened Regex
  import opened Glob
  import opened Text

  datatype Rule = Rule(val: string, excluded: bool)

  /** Anything below a directory of that name, at any depth. */
  function Below(dir: string): string {
    "**/" + dir + "/**"
  }

  const DEFAULTS: seq<Rule> := [
    Rule(Below(".git"), false), Rule(Below(".terraform"), false), Rule(Below(".terraform/modules"), true)]

  // ---- reading ------------------------------------------------------------

  function TrimLeft(s: string): string {
    if s != "" && Space(s[0]) then TrimLeft(s[1..]) else s
  }

  function TrimRight(s: string): string {
    if s != "" && Space(s[|s| - 1]) then TrimRight(s[..|s| - 1]) else s
  }

  function TrimSpace(s: string): string {
    TrimRight(TrimLeft(s))
  }

  /** Crash stands for the panic on indexing an empty pattern. */
  datatype Line = Skip | Crash | Parsed(rule: Rule)

  function ToRule(pattern: string, excluded: bool): Rule
    requires pattern != ""
  {
    var p := if pattern[|pattern| - 1] == '/' then pattern + "**" else pattern;
    Rule(if p[0] == '/' then p[1..] else "**/" + p, excluded)
  }

  function ReadLine(line: string): Line {
    if line == "" then Skip
    else
      var p := TrimSpace(line);
      if p == "" then Crash
      else if p[0] == '#' then Skip
      else if p[0] == '!' then
        if p[1..] == "" then Crash else Parsed(ToRule(p[1..], true))
      else Parsed(ToRule(p, false))
  }

  /** One more line. */
  function Extend(before: Option<seq<Rule>>, line: Line): Option<seq<Rule>> {
    match line
    case Crash => None
    case Skip => before
    case Parsed(rule) => if before.None? then None else Some(before.value + [rule])
  }

  /** The rules of the lines, in their order; None if one of the lines crashes. */
  function Collected(ls: seq<Line>): Option<seq<Rule>> {
    if ls == [] then Some([])
    else
      var n := |ls| - 1;
      if Collected(ls[..n]).None? then None else Extend(Collected(ls[..n]), ls[n])
  }

  function ReadAll(lines: seq<string>): (ls: seq<Line>)
    ensures |ls| == |lines| && forall i :: 0 <= i < |ls| ==> ls[i] == ReadLine(lines[i])
  {
    seq(|lines|, i requires 0 <= i < |lines| => ReadLine(lines[i]))
  }

  function RulesOf(lines: seq<string>): Option<seq<Rule>> {
    Collected(ReadAll(lines))
  }

  lemma {:induction false} CollectedExact(ls: seq<Line>)
    ensures Collected(ls).None? <==> exists i :: 0 <= i < |ls| && ls[i].Crash?
  {
    if ls == [] {
    } else {
      var n := |ls| - 1;
      CollectedExact(ls[..n]);
      assert ls == ls[..n] + [ls[n]];
    }
  }

  lemma {:induction false} CrashStays(ls: seq<Line>, i: nat)
    requires i <= |ls| && Collected(ls[..i]).None?
    ensures Collected(ls).None?
    decreases |ls|
  {
    if i == |ls| {
      assert ls[..i] == ls;
    } else {
      var n := |ls| - 1;
      assert ls[..n][..i] == ls[..i];
      CrashStays(ls[..n], i);
    }
  }

  lemma CollectedNext(ls: seq<Line>, i: nat)
    requires i < |ls| && Collected(ls[..i]).Some?
    ensures Collected(ls[..i + 1]) == Extend(Collected(ls[..i]), ls[i])
  {
    assert ls[..i + 1][..i] == ls[..i];
  }

  /** The body of the loop over the lines. */
  method ParseLine(line: string) returns (l: Line)
    ensures l == ReadLine(line)
  {
    var pattern := line;
    if |pattern| == 0 {
      return Skip;
    }
    pattern := TrimSpace(pattern);
    if |pattern| == 0 {
      return Crash;
    }
    if pattern[0] == '#' {
      return Skip;
    }
    var excluded := false;
    if pattern[0] == '!' {
      excluded := true;
      pattern := pattern[1..];
      if |pattern| == 0 {
        return Crash;
      }
    }
    if pattern[|pattern| - 1] == '/' {
      pattern := pattern + "**";
    }
    if pattern[0] == '/' {
      pattern := pattern[1..];
    } else {
      pattern := "**/" + pattern;
    }
    return Parsed(Rule(pattern, excluded));
  }

  /** The loop over the lines. */
  method AddRules(rules: seq<Rule>, lines: seq<string>) returns (all: Option<seq<Rule>>)
    ensures all == if RulesOf(lines).None? then None else Some(rules + RulesOf(lines).value)
  {
    var found := rules;
    ghost var ls := ReadAll(lines);
    for i := 0 to |lines|
      invariant Collected(ls[..i]).Some? && found == rules + Collected(ls[..i]).value
    {
      CollectedNext(ls, i);
      var line := ParseLine(lines[i]);
      if line.Crash? {
        CrashStays(ls, i + 1);
        return None;
      }
      if line.Parsed? {
        found := found + [line.rule];
      }
    }
    assert ls[..|lines|] == ls;
    return Some(found);
  }

  /** Rules of a file, after the defaults; the defaults alone if the file could not be read to its end.
      A line of spaces, or a lone exclamation mark, crashes. */
  method ReadRules(lines: seq<string>, readError: bool) returns (rules: Option<seq<Rule>>)
    ensures rules.None? <==> exists i :: 0 <= i < |lines| && ReadAll(lines)[i].Crash?
    ensures rules.Some? ==>
      RulesOf(lines).Some? && rules.value == if readError then DEFAULTS else DEFAULTS + RulesOf(lines).value
  {
    CollectedExact(ReadAll(lines));
    rules := AddRules(DEFAULTS, lines);
    if rules.Some? && readError {
      return Some(DEFAULTS);
    }
  }

  // ---- deciding -----------------------------------------------------------

  /** A rule whose expression does not compile matches nothing. */
  predicate RuleMatches(rule: Rule, path: string) {
    var r := ParseRegexp("^" + RenderAll(Tokens(rule.val)) + "$");
    r.Some? && MatchString(r.value, path)
  }

  method Match(rule: Rule, path: string) returns (matched: bool)
    ensures matched == RuleMatches(rule, path)
  {
    var regStr := Compile(rule.val);
    var r := ParseRegexp(regStr);
    return r.Some? && MatchString(r.value, path);
  }

  /** The last rule that matches decides. */
  ghost predicate Ignored(rules: seq<Rule>, path: string) {
    exists i :: 0 <= i < |rules| && RuleMatches(rules[i], path) && !rules[i].excluded
      && forall j :: i < j < |rules| ==> !RuleMatches(rules[j], path)
  }

  method MatchIgnoreRule(path: string, rules: seq<Rule>) returns (matched: bool)
    ensures matched <==> Ignored(rules, path)
  {
    matched := false;
    for i := 0 to |rules|
      invariant matched <==> Ignored(rules[..i], path)
    {
      assert rules[..i + 1] == rules[..i] + [rules[i]];
      ghost var before := Ignored(rules[..i], path);
      var hit := Match(rules[i], path);
      LastRule(rules[..i], rules[i], path);
      if hit {
        matched := !rules[i].excluded;
      }
    }
    assert rules[..|rules|] == rules;
  }

  lemma LastRule(rules: seq<Rule>, last: Rule, path: string)
    ensures Ignored(rules + [last], path) <==>
      if RuleMatches(last, path) then !last.excluded else Ignored(rules, path)
  {
    var all := rules + [last];
    assert all[|rules|] == last;
    if RuleMatches(last, path) {
      if !last.excluded {
        assert RuleMatches(all[|rules|], path);
      }
    } else {
      if Ignored(rules, path) {
        var i :| 0 <= i < |rules| && RuleMatches(rules[i], path) && !rules[i].excluded
          && forall j :: i < j < |rules| ==> !RuleMatches(rules[j], path);
        assert all[i] == rules[i];
        assert forall j :: i < j < |all| ==> !RuleMatches(all[j], path);
      }
      if Ignored(all, path) {
        var i :| 0 <= i < |all| && RuleMatches(all[i], path) && !all[i].excluded
          && forall j :: i < j < |all| ==> !RuleMatches(all[j], path);
        assert i < |rules| && rules[i] == all[i];
        assert forall j :: i < j < |rules| ==> rules[j] == all[j];
      }
    }
  }

  // ---- what plain names mean ----------------------------------------------

  /** A character that stands for itself in a pattern. */
  predicate Plain(c: char) {
    !Operator(c) || c == '.' || c == '$'
  }

  predicate PlainText(w: string) {
    forall c :: c in w ==> Plain(c)
  }

  function Literals(w: string): seq<Token> {
    seq(|w|, i requires 0 <= i < |w| => Lit(w[i], w[i] == '.' || w[i] == '$'))
  }

  lemma {:induction false} TokensOfText(w: string, p: string)
    requires PlainText(w)
    ensures Tokens(w + p) == Literals(w) + Tokens(p)
    decreases |w|
  {
    if w == "" {
      assert w + p == p;
    } else {
      assert (w + p)[1..] == w[1..] + p;
      assert w[0] in w && PlainText(w[1..]);
      TokensOfText(w[1..], p);
      assert Literals(w) == [Lit(w[0], w[0] == '.' || w[0] == '$')] + Literals(w[1..]);
    }
  }

  lemma {:induction false} MatchText(w: string, ts: seq<Token>, path: string)
    ensures Matches(Literals(w) + ts, path) <==> w <= path && Matches(ts, path[|w|..])
    decreases |w|
  {
    if w == "" {
      assert Literals(w) + ts == ts && path[0..] == path;
    } else {
      var head := Lit(w[0], w[0] == '.' || w[0] == '$');
      assert Literals(w) + ts == [head] + (Literals(w[1..]) + ts);
      assert ([head] + (Literals(w[1..]) + ts))[1..] == Literals(w[1..]) + ts;
      if path != "" && path[0] == w[0] {
        MatchText(w[1..], ts, path[1..]);
        assert w[1..] <= path[1..] <==> w <= path;
        if w <= path {
          assert path[1..][|w| - 1..] == path[|w|..];
        }
      }
    }
  }

  lemma SupportedText(w: string, ts: seq<Token>)
    requires PlainText(w) && Supported(ts)
    ensures Supported(Literals(w) + ts)
  {
    assert forall i :: 0 <= i < |w| ==> w[i] in w;
  }

  ghost predicate Boundary(a: string) {
    a == "" || a[|a| - 1] == '/'
  }

  /** `w` occurs in the path at the start of a component. */
  ghost predicate OccursAt(path: string, a: string, w: string, b: string) {
    path == a + w + b && Boundary(a)
  }

  ghost predicate Under(path: string, w: string) {
    exists a, b :: OccursAt(path, a, w, b)
  }

  /** Pattern `**` slash text `**`: the text occurs at the start of some component. */
  lemma DeepTextRest(w: string, excluded: bool, path: string)
    requires PlainText(w) && w != "" && '\n' !in path
    ensures RuleMatches(Rule("**/" + w + "**", excluded), path) <==> Under(path, w)
  {
    var p := "**/" + w + "**";
    var tail := Literals(w) + [Rest];
    assert Tokens("**") == [Rest] by {
      assert Read("**") == (Rest, "");
      assert Tokens("") == [];
    }
    TokensOfText(w, "**");
    assert p[3..] == w + "**";
    assert Read(p) == (Deep, w + "**");
    assert Tokens(p) == [Deep] + tail;
    SupportedText(w, [Rest]);
    CompileMeaning(p, path);
    assert Tokens(p)[1..] == tail;
    forall k | 0 <= k <= |path|
      ensures Matches(tail, path[k..]) <==> w <= path[k..]
    {
      MatchText(w, [Rest], path[k..]);
    }
    Splits(w, path);
  }

  lemma Splits(w: string, path: string)
    ensures Under(path, w) <==>
      exists k :: 0 <= k <= |path| && (k == 0 || path[k - 1] == '/') && w <= path[k..]
  {
    if Under(path, w) {
      var a, b :| OccursAt(path, a, w, b);
      assert path[|a|..] == w + b && path[..|a|] == a;
    }
    forall k | 0 <= k <= |path| && (k == 0 || path[k - 1] == '/') && w <= path[k..]
      ensures Under(path, w)
    {
      assert OccursAt(path, path[..k], w, path[k..][|w|..]);
    }
  }

  /** Names a line may hold verbatim. */
  ghost predicate Name(n: string) {
    && n != "" && PlainText(n) && '/' !in n
    && !Space(n[0]) && !Space(n[|n| - 1]) && n[0] != '#' && n[0] != '!'
  }

  /** Line `name/`: exactly the paths with a directory of that name. */
  lemma DirectoryLine(n: string, path: string)
    requires Name(n) && '\n' !in path
    ensures ReadLine(n + "/").Parsed? && !ReadLine(n + "/").rule.excluded
    ensures RuleMatches(ReadLine(n + "/").rule, path) <==> Under(path, n + "/")
  {
    var line := n + "/";
    assert TrimLeft(line) == line && TrimRight(line) == line;
    assert "**/" + (line + "**") == "**/" + line + "**";
    DeepTextRest(line, false, path);
  }

  /** Line `name`: exactly the paths whose last component is that name. */
  lemma NameLine(n: string, path: string)
    requires Name(n) && '\n' !in path
    ensures ReadLine(n).Parsed? && !ReadLine(n).rule.excluded
    ensures RuleMatches(ReadLine(n).rule, path) <==> exists a :: path == a + n && Boundary(a)
  {
    assert TrimLeft(n) == n && TrimRight(n) == n;
    assert n[|n| - 1] in n;
    DeepText(n, path);
    EndSplits(n, path);
  }

  /** Pattern `**` slash text: the path ends in the text, at the start of a component. */
  lemma DeepText(n: string, path: string)
    requires PlainText(n) && n != "" && '\n' !in path
    ensures RuleMatches(Rule("**/" + n, false), path) <==>
      exists k :: EndsAt(path, k, n)
  {
    var p := "**/" + n;
    TokensOfText(n, "");
    assert n + "" == n && Tokens("") == [];
    assert p[3..] == n && Read(p) == (Deep, n);
    assert Tokens(p) == [Deep] + (Literals(n) + []);
    SupportedText(n, []);
    CompileMeaning(p, path);
    DeepTextMatches(n, path);
  }

  lemma DeepTextMatches(n: string, path: string)
    ensures Matches([Deep] + (Literals(n) + []), path) <==> exists k :: EndsAt(path, k, n)
  {
    var ts := [Deep] + (Literals(n) + []);
    assert ts[1..] == Literals(n) + [];
    forall k | 0 <= k <= |path|
      ensures (k == 0 || path[k - 1] == '/') && Matches(ts[1..], path[k..]) <==> EndsAt(path, k, n)
    {
      MatchText(n, [], path[k..]);
    }
  }

  ghost predicate EndsAt(path: string, k: int, n: string) {
    0 <= k <= |path| && (k == 0 || path[k - 1] == '/') && path[k..] == n
  }

  lemma EndSplits(n: string, path: string)
    ensures (exists k :: EndsAt(path, k, n)) <==> (exists a :: path == a + n && Boundary(a))
  {
    forall a | path == a + n && Boundary(a)
      ensures EndsAt(path, |a|, n)
    {
    }
    forall k | EndsAt(path, k, n)
      ensures path == path[..k] + n && Boundary(path[..k])
    {
    }
  }

  /** Line `/name`: exactly that path. */
  lemma RootLine(n: string, path: string)
    requires Name(n) && '\n' !in path
    ensures ReadLine("/" + n).Parsed? && !ReadLine("/" + n).rule.excluded
    ensures RuleMatches(ReadLine("/" + n).rule, path) <==> path == n
  {
    var line := "/" + n;
    assert TrimLeft(line) == line && TrimRight(line) == line;
    assert n[|n| - 1] in n && line[|line| - 1] == n[|n| - 1];
    assert line[1..] == n;
    TokensOfText(n, "");
    assert n + "" == n && Tokens("") == [];
    SupportedText(n, []);
    CompileMeaning(n, path);
    MatchText(n, [], path);
  }

  /** The default rules ignore exactly what lies under a `.git` or `.terraform` directory but not
      under `.terraform/modules`. */
  lemma DefaultsMeaning(path: string)
    requires '\n' !in path
    ensures Ignored(DEFAULTS, path) <==>
      (Under(path, ".git/") || Under(path, ".terraform/")) && !Under(path, ".terraform/modules/")
  {
    var w0, w1, w2 := DefaultTexts();
    ThreeTexts(w0, w1, w2, DEFAULTS, path);
  }

  lemma DefaultTexts() returns (w0: string, w1: string, w2: string)
    ensures w0 == ".git/" && w1 == ".terraform/" && w2 == ".terraform/modules/"
    ensures PlainText(w0) && PlainText(w1) && PlainText(w2)
    ensures DEFAULTS == [Rule("**/" + w0 + "**", false), Rule("**/" + w1 + "**", false), Rule("**/" + w2 + "**", true)]
  {
    w0, w1, w2 := ".git/", ".terraform/", ".terraform/modules/";
    assert PlainText(w0);
    assert PlainText(w1);
    PlainModules();
    BelowVal(".git", w0);
    BelowVal(".terraform", w1);
    BelowVal(".terraform/modules", w2);
  }

  lemma PlainModules()
    ensures PlainText(".terraform/modules/")
  {
  }

  lemma BelowVal(dir: string, text: string)
    requires text == dir + "/"
    ensures Below(dir) == "**/" + text + "**"
  {
  }

  lemma ThreeTexts(w0: string, w1: string, w2: string, rules: seq<Rule>, path: string)
    requires '\n' !in path && w0 != "" && w1 != "" && w2 != ""
    requires PlainText(w0) && PlainText(w1) && PlainText(w2)
    requires |rules| == 3 && rules[0] == Rule("**/" + w0 + "**", false)
    requires rules[1] == Rule("**/" + w1 + "**", false) && rules[2] == Rule("**/" + w2 + "**", true)
    ensures Ignored(rules, path) <==> (Under(path, w0) || Under(path, w1)) && !Under(path, w2)
  {
    DeepTextRest(w0, false, path);
    DeepTextRest(w1, false, path);
    DeepTextRest(w2, true, path);
    LastOfThree(rules[0], rules[1], rules[2], path);
    assert [rules[0], rules[1], rules[2]] == rules;
  }

  lemma LastOfThree(r0: Rule, r1: Rule, r2: Rule, path: string)
    requires !r0.excluded && !r1.excluded && r2.excluded
    ensures Ignored([r0, r1, r2], path) <==>
      (RuleMatches(r0, path) || RuleMatches(r1, path)) && !RuleMatches(r2, path)
  {
    LastRule([], r0, path);
    LastRule([r0], r1, path);
    LastRule([r0, r1], r2, path);
    assert [] + [r0] == [r0] && [r0] + [r1] == [r0, r1] && [r0, r1] + [r2] == [r0, r1, r2];
  }

  /** A final backslash escapes the end anchor: the pattern stands for a prefix and a dollar sign. */
  lemma FinalBackslash(n: string, path: string)
    requires Name(n) && '\n' !in path
    ensures RuleMatches(Rule(n + "\\", false), path) <==> n + "$" <= path
  {
    var p := n + "\\";
    TokensOfText(n, "\\");
    assert Read("\\") == (Dangling, "") && Tokens("") == [];
    assert Tokens("\\") == [Dangling];
    SupportedText(n, [Dangling]);
    CompileMeaning(p, path);
    MatchText(n, [Dangling], path);
    if n <= path && |path| > |n| && path[|n|] == '$' {
      assert path[..|n| + 1] == n + "$";
    }
  }
}
