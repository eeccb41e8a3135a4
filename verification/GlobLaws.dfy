// pkg/archive/terraformignore.go: what patterns and lines stand for, as laws about their text. Together the
// laws of the first part determine every pattern they apply to, one piece of its text after another.
module GlobLaws {
  import opened Regex
  import opened Glob
  import opened Text
  import opened IgnoreRules

  /** Only punctuation is escaped, and what is not escaped is no operator of regular expressions but for
      the stars and question marks of the pattern. */
  predicate WellFormed(p: string)
    decreases |p|
  {
    if p == "" then true
    else if p[0] == '\\' then |p| > 1 ==> Punctuation(p[1]) && WellFormed(p[2..])
    else (Plain(p[0]) || p[0] == '*' || p[0] == '?') && WellFormed(p[1..])
  }

  predicate Fits(p: string, path: string) {
    RuleMatches(Rule(p, false), path)
  }

  lemma {:induction false} WellFormedSupported(p: string)
    requires WellFormed(p)
    ensures Supported(Tokens(p))
    decreases |p|
  {
    if p != "" {
      var left := Read(p).1;
      if p[0] == '*' && |p| > 1 && p[1] == '*' {
        assert WellFormed(p[1..]) && p[1..][1..] == p[2..] && WellFormed(p[2..]);
        if |p| > 2 && p[2] == '/' {
          assert p[2..][1..] == p[3..];
        }
      }
      WellFormedSupported(left);
    }
  }

  lemma FitsTokens(p: string, path: string)
    requires WellFormed(p) && '\n' !in path
    ensures Fits(p, path) <==> Matches(Tokens(p), path)
  {
    WellFormedSupported(p);
    CompileMeaning(p, path);
  }

  lemma {:induction false} WellFormedText(a: string, q: string)
    requires PlainText(a)
    ensures WellFormed(a + q) <==> WellFormed(q)
  {
    if a == "" {
      assert a + q == q;
    } else {
      assert (a + q)[1..] == a[1..] + q;
      assert a[0] in a && PlainText(a[1..]);
      WellFormedText(a[1..], q);
    }
  }

  // ---- the laws, one piece of text at a time ------------------------------

  lemma EmptyLaw(path: string)
    requires '\n' !in path
    ensures Fits("", path) <==> path == ""
  {
    FitsTokens("", path);
  }

  /** Plain text stands for itself. */
  lemma TextLaw(a: string, q: string, path: string)
    requires PlainText(a) && WellFormed(q) && '\n' !in path
    ensures Fits(a + q, path) <==> a <= path && Fits(q, path[|a|..])
  {
    WellFormedText(a, q);
    FitsTokens(a + q, path);
    TokensOfText(a, q);
    MatchText(a, Tokens(q), path);
    if a <= path {
      FitsTokens(q, path[|a|..]);
    }
  }

  lemma ReadHead(head: string, t: Token, q: string)
    requires head != "" && Read(head + q) == (t, q)
    ensures Tokens(head + q) == [t] + Tokens(q) && Tokens(head + q)[1..] == Tokens(q)
  {
    assert head + q != "";
  }

  /** An escaped character stands for itself. */
  lemma EscapeLaw(c: char, q: string, path: string)
    requires Punctuation(c) && WellFormed(q) && '\n' !in path
    ensures Fits("\\" + [c] + q, path) <==> path != "" && path[0] == c && Fits(q, path[1..])
  {
    var p := "\\" + [c] + q;
    assert p[0] == '\\' && p[1] == c && p[2..] == q;
    ReadHead("\\" + [c], Lit(c, true), q);
    FitsTokens(p, path);
    if path != "" {
      FitsTokens(q, path[1..]);
    }
  }

  /** A question mark stands for one character that is no slash. */
  lemma QuestionLaw(q: string, path: string)
    requires WellFormed(q) && '\n' !in path
    ensures Fits("?" + q, path) <==> path != "" && path[0] != '/' && Fits(q, path[1..])
  {
    var p := "?" + q;
    assert p[1..] == q;
    ReadHead("?", One, q);
    FitsTokens(p, path);
    if path != "" {
      FitsTokens(q, path[1..]);
    }
  }

  /** A star stands for any text without a slash. */
  lemma StarLaw(q: string, path: string)
    requires WellFormed(q) && (q != "" ==> q[0] != '*') && '\n' !in path
    ensures Fits("*" + q, path) <==> exists k :: 0 <= k <= |path| && '/' !in path[..k] && Fits(q, path[k..])
  {
    var p := "*" + q;
    assert p[1..] == q;
    ReadHead("*", Many, q);
    FitsTokens(p, path);
    forall k | 0 <= k <= |path|
      ensures Fits(q, path[k..]) <==> Matches(Tokens(q), path[k..])
    {
      FitsTokens(q, path[k..]);
    }
  }

  ghost predicate DirectoriesThen(q: string, path: string) {
    exists k :: 0 <= k <= |path| && (k == 0 || path[k - 1] == '/') && Fits(q, path[k..])
  }

  lemma DeepTokens(head: string, q: string, path: string)
    requires head != "" && WellFormed(head + q) && WellFormed(q) && Read(head + q) == (Deep, q) && '\n' !in path
    ensures Fits(head + q, path) <==> DirectoriesThen(q, path)
  {
    ReadHead(head, Deep, q);
    FitsTokens(head + q, path);
    forall k | 0 <= k <= |path|
      ensures Fits(q, path[k..]) <==> Matches(Tokens(q), path[k..])
    {
      FitsTokens(q, path[k..]);
    }
  }

  lemma StarsWellFormed(q: string)
    requires WellFormed(q)
    ensures WellFormed("*" + q) && WellFormed("**" + q) && WellFormed("**/" + q)
  {
    assert ("*" + q)[1..] == q && ("**" + q)[1..] == "*" + q;
    assert ("**/" + q)[1..] == "*/" + q && ("*/" + q)[1..] == "/" + q && ("/" + q)[1..] == q;
    assert WellFormed("/" + q) && WellFormed("*/" + q);
  }

  /** Two stars before more text, with or without a slash, stand for any number of directories. */
  lemma DeepLaw(q: string, path: string)
    requires WellFormed(q) && q != "" && '\n' !in path
    ensures Fits("**/" + q, path) <==> DirectoriesThen(q, path)
    ensures q[0] != '/' ==> (Fits("**" + q, path) <==> DirectoriesThen(q, path))
  {
    var slashed, bare := "**/" + q, "**" + q;
    StarsWellFormed(q);
    assert slashed[3..] == q && slashed[2] == '/';
    DeepTokens("**/", q, path);
    if q[0] != '/' {
      assert bare[2..] == q && bare[2] == q[0];
      DeepTokens("**", q, path);
    }
  }

  /** Two stars that end a pattern, with or without a slash, stand for everything. */
  lemma RestLaw(path: string)
    requires '\n' !in path
    ensures Fits("**", path) && Fits("**/", path)
  {
    assert WellFormed("") && WellFormed("/") && "*/"[1..] == "/" && WellFormed("*/");
    assert "**/"[1..] == "*/" && "**"[1..] == "*" && WellFormed("*");
    assert Read("**") == (Rest, "") && Read("**/") == (Rest, "");
    assert Tokens("") == [] && Tokens("**") == [Rest] && Tokens("**/") == [Rest];
    FitsTokens("**", path);
    FitsTokens("**/", path);
  }

  /** A backslash that ends a pattern stands for a dollar sign and whatever follows. */
  lemma DanglingLaw(path: string)
    requires '\n' !in path
    ensures Fits("\\", path) <==> path != "" && path[0] == '$'
  {
    assert Read("\\") == (Dangling, "") && Tokens("") == [] && Tokens("\\") == [Dangling];
    FitsTokens("\\", path);
  }

  // ---- patterns between two texts -----------------------------------------

  lemma TextOnly(b: string, path: string)
    requires PlainText(b) && '\n' !in path
    ensures WellFormed(b) && (Fits(b, path) <==> path == b)
  {
    assert b + "" == b;
    WellFormedText(b, "");
    TextLaw(b, "", path);
    if b <= path {
      EmptyLaw(path[|b|..]);
    }
  }

  lemma PlainHead(b: string)
    requires PlainText(b) && b != ""
    ensures b[0] != '*' && Plain(b[0])
  {
    assert b[0] in b;
  }

  /** What lies between `a` and `b` is the text before some place in the rest of the path. */
  lemma BetweenAt(a: string, b: string, path: string, m: string)
    ensures path == a + m + b <==>
      a <= path && |m| <= |path| - |a| && path[|a|..][..|m|] == m && path[|a|..][|m|..] == b
  {
    if path == a + m + b {
      assert path[|a|..] == m + b;
    }
    if a <= path && |m| <= |path| - |a| && path[|a|..][..|m|] == m && path[|a|..][|m|..] == b {
      assert path == a + path[|a|..];
    }
  }

  ghost predicate BetweenComponent(a: string, b: string, path: string) {
    exists m :: path == a + m + b && '/' !in m
  }

  ghost predicate ComponentThen(b: string, path: string) {
    exists k :: 0 <= k <= |path| && '/' !in path[..k] && path[k..] == b
  }

  lemma ComponentBetween(a: string, b: string, path: string)
    ensures BetweenComponent(a, b, path) <==> a <= path && ComponentThen(b, path[|a|..])
  {
    if BetweenComponent(a, b, path) {
      var m :| path == a + m + b && '/' !in m;
      BetweenAt(a, b, path, m);
    }
    if a <= path && ComponentThen(b, path[|a|..]) {
      var k :| 0 <= k <= |path| - |a| && '/' !in path[|a|..][..k] && path[|a|..][k..] == b;
      BetweenAt(a, b, path, path[|a|..][..k]);
    }
  }

  lemma StarThen(b: string, path: string)
    requires PlainText(b) && '\n' !in path
    ensures WellFormed("*" + b) && (Fits("*" + b, path) <==> ComponentThen(b, path))
  {
    if b != "" { PlainHead(b); }
    TextOnly(b, path);
    assert ("*" + b)[1..] == b;
    StarLaw(b, path);
    forall k | 0 <= k <= |path|
      ensures Fits(b, path[k..]) <==> path[k..] == b
    {
      TextOnly(b, path[k..]);
    }
  }

  /** `a*b` */
  lemma StarBetween(a: string, b: string, path: string)
    requires PlainText(a) && PlainText(b) && '\n' !in path
    ensures Fits(a + ("*" + b), path) <==> exists m :: path == a + m + b && '/' !in m
  {
    StarThen(b, path);
    TextLaw(a, "*" + b, path);
    if a <= path {
      StarThen(b, path[|a|..]);
    }
    ComponentBetween(a, b, path);
    assert BetweenComponent(a, b, path) <==> exists m :: path == a + m + b && '/' !in m;
  }

  /** `a?b` */
  lemma QuestionBetween(a: string, b: string, path: string)
    requires PlainText(a) && PlainText(b) && '\n' !in path
    ensures Fits(a + ("?" + b), path) <==> exists c: char :: path == a + [c] + b && c != '/'
  {
    assert ("?" + b)[1..] == b;
    TextOnly(b, path);
    TextLaw(a, "?" + b, path);
    if a <= path {
      var rest := path[|a|..];
      QuestionLaw(b, rest);
      if rest != "" {
        TextOnly(b, rest[1..]);
        BetweenAt(a, b, path, rest[..1]);
        assert rest[..1] == [rest[0]];
      }
    }
    forall c: char | path == a + [c] + b
      ensures a <= path && |path| > |a| && path[|a|..][..1] == [c]
    {
      BetweenAt(a, b, path, [c]);
    }
  }

  ghost predicate BetweenDirectories(a: string, b: string, path: string) {
    exists m :: path == a + m + b && Boundary(m)
  }

  lemma DirectoriesBetween(a: string, b: string, path: string)
    requires PlainText(b) && '\n' !in path
    ensures BetweenDirectories(a, b, path) <==> a <= path && DirectoriesThen(b, path[|a|..])
  {
    if a <= path {
      var rest := path[|a|..];
      forall k | 0 <= k <= |rest|
        ensures (k == 0 || rest[k - 1] == '/') && Fits(b, rest[k..])
           <==> path == a + rest[..k] + b && Boundary(rest[..k])
      {
        TextOnly(b, rest[k..]);
        BetweenAt(a, b, path, rest[..k]);
      }
    }
    forall m | path == a + m + b
      ensures a <= path && |m| <= |path| - |a| && path[|a|..][..|m|] == m
    {
      BetweenAt(a, b, path, m);
    }
  }

  /** `a**` slash `b`, and `a**b` */
  lemma DeepBetween(a: string, b: string, path: string)
    requires PlainText(a) && PlainText(b) && b != "" && '\n' !in path
    ensures Fits(a + ("**/" + b), path) <==> BetweenDirectories(a, b, path)
    ensures b[0] != '/' ==> (Fits(a + ("**" + b), path) <==> BetweenDirectories(a, b, path))
  {
    TextOnly(b, path);
    StarsWellFormed(b);
    TextLaw(a, "**/" + b, path);
    TextLaw(a, "**" + b, path);
    if a <= path {
      DeepLaw(b, path[|a|..]);
    }
    DirectoriesBetween(a, b, path);
  }

  /** A backslash before a character of punctuation. */
  lemma EscapeBetween(a: string, c: char, b: string, path: string)
    requires PlainText(a) && PlainText(b) && Punctuation(c) && '\n' !in path
    ensures Fits(a + ("\\" + [c] + b), path) <==> path == a + [c] + b
  {
    TextOnly(b, path);
    var p := "\\" + [c] + b;
    assert p[0] == '\\' && p[1] == c && p[2..] == b;
    TextLaw(a, p, path);
    if a <= path {
      var rest := path[|a|..];
      EscapeLaw(c, b, rest);
      if rest != "" {
        TextOnly(b, rest[1..]);
        assert rest[..1] == [rest[0]];
      }
    }
    BetweenAt(a, b, path, [c]);
  }

  // ---- lines --------------------------------------------------------------

  ghost predicate Blank(s: string) {
    forall c :: c in s ==> Space(c)
  }

  ghost predicate Trimmed(s: string) {
    s != "" && !Space(s[0]) && !Space(s[|s| - 1])
  }

  lemma {:induction false} TrimLeftExact(a: string, t: string)
    requires Blank(a) && (t != "" ==> !Space(t[0]))
    ensures TrimLeft(a + t) == t
  {
    if a == "" {
      assert a + t == t;
    } else {
      assert a[0] in a && (a + t)[1..] == a[1..] + t;
      TrimLeftExact(a[1..], t);
    }
  }

  lemma {:induction false} TrimRightExact(t: string, b: string)
    requires Blank(b) && (t != "" ==> !Space(t[|t| - 1]))
    ensures TrimRight(t + b) == t
  {
    if b == "" {
      assert t + b == t;
    } else {
      var n := |b| - 1;
      assert b[n] in b && (t + b)[..|t + b| - 1] == t + b[..n];
      TrimRightExact(t, b[..n]);
    }
  }

  /** White space around a line does not matter. */
  lemma PaddedLine(a: string, t: string, b: string)
    requires Blank(a) && Blank(b) && Trimmed(t)
    ensures ReadLine(a + t + b) == ReadLine(t)
  {
    assert a + t + b == a + (t + b) && "" + (t + b) == t + b;
    TrimLeftExact(a, t + b);
    TrimLeftExact("", t);
    TrimRightExact(t, b);
    TrimRightExact(t, "");
    assert "" + t == t && t + "" == t;
  }

  /** A line of white space crashes; the empty line does not. */
  lemma BlankLine(a: string)
    requires Blank(a)
    ensures ReadLine(a) == if a == "" then Skip else Crash
  {
    TrimLeftExact(a, "");
    assert a + "" == a;
  }

  lemma TrimmedAsIs(t: string)
    requires Trimmed(t)
    ensures TrimSpace(t) == t
  {
    assert "" + t == t && t + "" == t;
    TrimLeftExact("", t);
    TrimRightExact(t, "");
  }

  /** What is left of a line that is neither comment nor exclusion: a pattern. */
  ghost predicate Body(p: string) {
    Trimmed(p) && p[0] != '#' && p[0] != '!'
  }

  lemma CommentLine(p: string)
    requires Trimmed(p) && p[0] == '#'
    ensures ReadLine(p) == Skip
  {
    TrimmedAsIs(p);
  }

  /** An exclamation mark turns the rule of the rest of the line into an exclusion. */
  lemma ExclusionLine(p: string)
    requires Body(p)
    ensures ReadLine(p).Parsed? && !ReadLine(p).rule.excluded
    ensures ReadLine("!" + p) == Parsed(ReadLine(p).rule.(excluded := true))
    ensures ReadLine("!") == Crash
  {
    var line := "!" + p;
    assert line[1..] == p && line[|line| - 1] == p[|p| - 1];
    TrimmedAsIs(p);
    TrimmedAsIs(line);
    TrimmedAsIs("!");
  }

  lemma BodyRead(line: string)
    requires Body(line)
    ensures ReadLine(line) == Parsed(ToRule(line, false))
  {
    TrimmedAsIs(line);
  }

  lemma PlainRule(p: string)
    requires p != "" && p[0] != '/' && p[|p| - 1] != '/'
    ensures ToRule(p, false) == Rule("**/" + p, false) && ToRule("/" + p, false) == Rule(p, false)
  {
    var line := "/" + p;
    assert line[1..] == p && line[|line| - 1] == p[|p| - 1];
  }

  /** A rule of a line without a slash at its start applies in every directory, one with it at the root. */
  lemma PatternLine(p: string, path: string)
    requires Body(p) && p[0] != '/' && p[|p| - 1] != '/' && WellFormed(p) && '\n' !in path
    ensures RuleMatches(ReadLine(p).rule, path) <==> DirectoriesThen(p, path)
    ensures RuleMatches(ReadLine("/" + p).rule, path) <==> Fits(p, path)
  {
    BodyRead(p);
    BodyRead("/" + p);
    PlainRule(p);
    DeepLaw(p, path);
  }

  lemma DirectoryRule(p: string)
    requires p != "" && p[0] != '/'
    ensures ToRule(p + "/", false) == Rule("**/" + (p + "/**"), false)
  {
    assert p + "/" + "**" == p + "/**";
  }

  lemma RootDirectoryRule(p: string)
    ensures ToRule("/" + (p + "/"), false) == Rule(p + "/**", false)
  {
    var line := "/" + (p + "/");
    assert (line + "**")[1..] == p + "/**";
  }

  /** A line that ends in a slash is about everything below such directories; a line that is a slash, about
      everything. */
  lemma DirectoryPatternLine(p: string, path: string)
    requires Body(p) && p[0] != '/' && WellFormed(p + "/**") && '\n' !in path
    ensures RuleMatches(ReadLine(p + "/").rule, path) <==> DirectoriesThen(p + "/**", path)
    ensures RuleMatches(ReadLine("/" + (p + "/")).rule, path) <==> Fits(p + "/**", path)
    ensures RuleMatches(ReadLine("/").rule, path)
  {
    BodyRead(p + "/");
    BodyRead("/" + (p + "/"));
    DirectoryRule(p);
    RootDirectoryRule(p);
    DeepLaw(p + "/**", path);
    SlashLine(path);
  }

  lemma SlashLine(path: string)
    requires '\n' !in path
    ensures ReadLine("/") == Parsed(Rule("**", false)) && RuleMatches(ReadLine("/").rule, path)
  {
    BodyRead("/");
    assert ("/" + "**")[1..] == "**";
    RestLaw(path);
  }

  /** So line `a*b` is about the file names that start with `a` and end in `b`, below any directory. */
  lemma StarLine(a: string, b: string, p: string, path: string)
    requires PlainText(a) && PlainText(b) && p == a + ("*" + b) && '\n' !in path
    requires Body(p) && p[0] != '/' && p[|p| - 1] != '/'
    ensures RuleMatches(ReadLine(p).rule, path) <==> exists d, m :: StarredAt(path, d, a, m, b)
  {
    StarThen(b, path);
    WellFormedText(a, "*" + b);
    PatternLine(p, path);
    if DirectoriesThen(p, path) {
      FitsStarred(path, a, b, p);
    }
    forall d, m | StarredAt(path, d, a, m, b)
      ensures DirectoriesThen(p, path)
    {
      StarredFits(path, d, a, m, b);
    }
  }

  lemma FitsStarred(path: string, a: string, b: string, p: string)
    requires PlainText(a) && PlainText(b) && p == a + ("*" + b) && '\n' !in path && DirectoriesThen(p, path)
    ensures exists d, m :: StarredAt(path, d, a, m, b)
  {
    var k :| 0 <= k <= |path| && (k == 0 || path[k - 1] == '/') && Fits(p, path[k..]);
    var left := path[k..];
    StarBetween(a, b, left);
    var m :| left == a + m + b && '/' !in m;
    assert path == path[..k] + left && StarredAt(path, path[..k], a, m, b);
  }

  lemma StarredFits(path: string, d: string, a: string, m: string, b: string)
    requires PlainText(a) && PlainText(b) && '\n' !in path && StarredAt(path, d, a, m, b)
    ensures DirectoriesThen(a + ("*" + b), path)
  {
    assert path[|d|..] == a + m + b && path[..|d|] == d;
    StarBetween(a, b, path[|d|..]);
  }

  ghost predicate StarredAt(path: string, d: string, a: string, m: string, b: string) {
    path == d + (a + m + b) && Boundary(d) && '/' !in m
  }

  /** The last line that applies to a path decides it. */
  lemma LastLine(lines: seq<string>, line: string, path: string)
    requires RulesOf(lines).Some? && ReadLine(line).Parsed?
    ensures RulesOf(lines + [line]).Some?
    ensures var rule := ReadLine(line).rule;
      Ignored(DEFAULTS + RulesOf(lines + [line]).value, path) <==>
        if RuleMatches(rule, path) then !rule.excluded else Ignored(DEFAULTS + RulesOf(lines).value, path)
  {
    var all := lines + [line];
    assert ReadAll(all)[..|lines|] == ReadAll(lines);
    var rule := ReadLine(line).rule;
    assert DEFAULTS + (RulesOf(lines).value + [rule]) == DEFAULTS + RulesOf(lines).value + [rule];
    LastRule(DEFAULTS + RulesOf(lines).value, rule, path);
  }

  /** So a file named by the last line is ignored, and one named after an exclamation mark is not,
      whatever the lines before say. */
  lemma LastNameWins(lines: seq<string>, n: string, d: string)
    requires RulesOf(lines).Some? && Name(n) && Boundary(d) && '\n' !in d + n
    ensures RulesOf(lines + [n]).Some? && Ignored(DEFAULTS + RulesOf(lines + [n]).value, d + n)
    ensures RulesOf(lines + ["!" + n]).Some? && !Ignored(DEFAULTS + RulesOf(lines + ["!" + n]).value, d + n)
  {
    NameLine(n, d + n);
    ExclusionLine(n);
    LastLine(lines, n, d + n);
    LastLine(lines, "!" + n, d + n);
  }
}
