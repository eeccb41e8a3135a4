// pkg/archive/terraformignore.go: ignore patterns, what they mean, and their compilation to a regular
// expression. Patterns are read into tokens; tokens have a meaning of their own, without regexes.
module Glob {
  import opened Regex

  /** Deep is an inner `**` or `**` slash; Rest is one that ends the pattern; Dangling is a final
      backslash, which turns the end anchor into a dollar sign. */
  datatype Token = Lit(c: char, escaped: bool) | One | Many | Deep | Rest | Dangling

  function Read(p: string): (Token, string)
    requires p != ""
    ensures |Read(p).1| < |p|
  {
    if p[0] == '*' then
      if |p| > 1 && p[1] == '*' then
        var left := if |p| > 2 && p[2] == '/' then p[3..] else p[2..];
        (if left == "" then Rest else Deep, left)
      else (Many, p[1..])
    else if p[0] == '?' then (One, p[1..])
    else if p[0] == '.' || p[0] == '$' then (Lit(p[0], true), p[1..])
    else if p[0] == '\\' then
      if |p| > 1 then (Lit(p[1], true), p[2..]) else (Dangling, "")
    else (Lit(p[0], false), p[1..])
  }

  function Tokens(p: string): seq<Token>
    decreases |p|
  {
    if p == "" then [] else [Read(p).0] + Tokens(Read(p).1)
  }

  /** Which paths a pattern stands for. */
  predicate Matches(ts: seq<Token>, path: string) {
    if ts == [] then path == ""
    else match ts[0]
      case Lit(c, _) => path != "" && path[0] == c && Matches(ts[1..], path[1..])
      case One => path != "" && path[0] != '/' && Matches(ts[1..], path[1..])
      case Many => exists k :: 0 <= k <= |path| && '/' !in path[..k] && Matches(ts[1..], path[k..])
      case Deep => exists k :: 0 <= k <= |path| && (k == 0 || path[k - 1] == '/') && Matches(ts[1..], path[k..])
      case Rest => true
      case Dangling => path != "" && path[0] == '$'
  }

  // ---- compilation --------------------------------------------------------

  function Render(t: Token): string {
    match t
    case Lit(c, escaped) => if escaped then ['\\', c] else [c]
    case One => "[^/]"
    case Many => "[^/]*"
    case Deep => "(.*/)?"
    case Rest => ".*"
    case Dangling => "\\"
  }

  function RenderAll(ts: seq<Token>): string {
    if ts == [] then "" else Render(ts[0]) + RenderAll(ts[1..])
  }

  /** The scanner loop. */
  method Compile(pattern: string) returns (regStr: string)
    ensures regStr == "^" + RenderAll(Tokens(pattern)) + "$"
  {
    regStr := "^";
    var pos := 0;
    while pos < |pattern|
      invariant 0 <= pos <= |pattern|
      invariant regStr + RenderAll(Tokens(pattern[pos..])) == "^" + RenderAll(Tokens(pattern))
    {
      ghost var left, done := pattern[pos..], regStr;
      ghost var token, after := Read(left).0, Read(left).1;
      assert Tokens(left)[1..] == Tokens(after);
      assert done + Render(token) + RenderAll(Tokens(after)) == done + RenderAll(Tokens(left));
      var ch := pattern[pos];
      pos := pos + 1;
      if ch == '*' {
        if pos < |pattern| && pattern[pos] == '*' {
          pos := pos + 1;
          if pos < |pattern| && pattern[pos] == '/' {
            pos := pos + 1;
          }
          if pos == |pattern| {
            regStr := regStr + ".*";
          } else {
            regStr := regStr + "(.*/)?";
          }
        } else {
          regStr := regStr + "[^/]*";
        }
      } else if ch == '?' {
        regStr := regStr + "[^/]";
      } else if ch == '.' || ch == '$' {
        regStr := regStr + "\\" + [ch];
      } else if ch == '\\' {
        if pos < |pattern| {
          regStr := regStr + "\\" + [pattern[pos]];
          pos := pos + 1;
        } else {
          regStr := regStr + "\\";
        }
      } else {
        regStr := regStr + [ch];
      }
      assert pattern[pos..] == after && regStr == done + Render(token);
    }
    regStr := regStr + "$";
  }

  // ---- the compiled expression, parsed back -------------------------------

  /** Literals the regular-expression syntax takes as themselves. */
  predicate Supported(ts: seq<Token>) {
    forall t :: t in ts && t.Lit? ==> if t.escaped then Punctuation(t.c) else !Operator(t.c)
  }

  predicate LastOnly(ts: seq<Token>) {
    forall i :: 0 <= i < |ts| - 1 ==> ts[i] != Rest && ts[i] != Dangling
  }

  predicate Dangles(ts: seq<Token>) {
    ts != [] && ts[|ts| - 1] == Dangling
  }

  lemma {:induction false} TokensLastOnly(p: string)
    ensures LastOnly(Tokens(p))
    decreases |p|
  {
    if p == "" {
    } else {
      TokensLastOnly(Read(p).1);
    }
  }

  function Piece(t: Token): Re {
    match t
    case Lit(c, _) => Chr(c)
    case One => NotSlash
    case Many => Star(NotSlash)
    case Deep => Opt(ANY_DIRS)
    case Rest => Star(Dot)
    case Dangling => Chr('$')
  }

  function ReOf(ts: seq<Token>): Re {
    if ts == [] then Eps else Cat(Piece(ts[0]), ReOf(ts[1..]))
  }

  /** The text after a token never starts with a repetition operator. */
  predicate Follows(left: string) {
    left == "" || (left[0] != '*' && left[0] != '?')
  }

  lemma RenderedFollows(ts: seq<Token>)
    requires Supported(ts) && LastOnly(ts)
    ensures Follows(RenderAll(ts) + "$")
  {
  }

  lemma ParseDeep(left: string)
    requires Follows(left)
    ensures ParsePiece("(.*/)?" + left) == Ok(Opt(ANY_DIRS), left)
  {
    var s := "(.*/)?" + left;
    var t := ")?" + left;
    assert s[1..] == ".*/" + t;
    assert ParseSeq(t) == Ok(Eps, t);
    assert ("/" + t)[1..] == t;
    assert ParsePiece("/" + t) == Ok(Chr('/'), t);
    assert (".*/" + t)[1..] == "*/" + t && ("*/" + t)[1..] == "/" + t;
    assert ParseSeq("/" + t) == Ok(Cat(Chr('/'), Eps), t);
    assert ParsePiece(".*/" + t) == Ok(Star(Dot), "/" + t);
    assert ParseSeq(".*/" + t) == Ok(ANY_DIRS, t);
    assert s[0] == '(' && ParseAtom(s) == Ok(ANY_DIRS, t[1..]);
    assert t[1..] == "?" + left && ("?" + left)[1..] == left;
  }

  lemma ParseToken(t: Token, left: string)
    requires t.Lit? ==> if t.escaped then Punctuation(t.c) else !Operator(t.c)
    requires t != Dangling && Follows(left)
    ensures ParsePiece(Render(t) + left) == Ok(Piece(t), left)
  {
    var s := Render(t) + left;
    match t
    case Lit(c, escaped) =>
      if escaped {
        assert s[2..] == left;
      } else {
        assert s[1..] == left;
      }
    case One => assert s[..4] == "[^/]" && s[4..] == left;
    case Many => assert s[..4] == "[^/]" && s[4..] == "*" + left && s[4..][1..] == left;
    case Deep => ParseDeep(left);
    case Rest => assert s[1..] == "*" + left && s[1..][1..] == left;
  }

  lemma {:induction false} ParseRendered(ts: seq<Token>)
    requires Supported(ts) && LastOnly(ts)
    ensures ParseSeq(RenderAll(ts) + "$") == Ok(ReOf(ts), if Dangles(ts) then "" else "$")
  {
    if ts == [] {
      assert RenderAll(ts) + "$" == "$";
    } else {
      var left := RenderAll(ts[1..]) + "$";
      var s := RenderAll(ts) + "$";
      assert s == Render(ts[0]) + left;
      assert ts[0] in ts;
      if ts[0] == Dangling {
        assert |ts| == 1 && left == "$" && s[2..] == "";
        assert ParsePiece(s) == Ok(Chr('$'), "");
      } else {
        RenderedFollows(ts[1..]);
        ParseToken(ts[0], left);
        ParseRendered(ts[1..]);
      }
    }
  }

  // ---- meaning is preserved -----------------------------------------------

  /** What the parsed expression accepts, as a property of the tokens. */
  predicate Accepts(ts: seq<Token>, path: string) {
    MatchString(Regexp(ReOf(ts), !Dangles(ts)), path)
  }

  /** Acceptance splits at the first token, anchored or not. */
  lemma AcceptsCons(ts: seq<Token>, path: string)
    requires |ts| > 1 || (|ts| == 1 && ts[0] != Dangling)
    ensures Accepts(ts, path) <==>
      exists k :: 0 <= k <= |path| && Lang(Piece(ts[0]), path[..k]) && Accepts(ts[1..], path[k..])
  {
    if Dangles(ts) {
      UnanchoredCons(Piece(ts[0]), ReOf(ts[1..]), path);
    }
  }

  lemma UnanchoredCons(a: Re, b: Re, s: string)
    ensures MatchString(Regexp(Cat(a, b), false), s) <==>
      exists k :: 0 <= k <= |s| && Lang(a, s[..k]) && MatchString(Regexp(b, false), s[k..])
  {
    forall m, k | 0 <= k <= m <= |s|
      ensures s[..m][..k] == s[..k] && s[..m][k..] == s[k..][..m - k]
    {
    }
    if MatchString(Regexp(Cat(a, b), false), s) {
      var m :| 0 <= m <= |s| && Lang(Cat(a, b), s[..m]);
      var k :| 0 <= k <= m && Lang(a, s[..m][..k]) && Lang(b, s[..m][k..]);
      assert Lang(b, s[k..][..m - k]);
    }
    forall k, n | 0 <= k <= |s| && Lang(a, s[..k]) && 0 <= n <= |s[k..]| && Lang(b, s[k..][..n])
      ensures Lang(Cat(a, b), s[..k + n])
    {
      assert s[..k + n][..k] == s[..k] && s[..k + n][k..] == s[k..][..n];
    }
  }

  lemma LangHead(t: Token, path: string, k: nat)
    requires k <= |path| && '\n' !in path
    ensures Lang(Piece(t), path[..k]) <==>
      match t
      case Lit(c, _) => k == 1 && path[0] == c
      case One => k == 1 && path[0] != '/'
      case Many => '/' !in path[..k]
      case Deep => k == 0 || path[k - 1] == '/'
      case Rest => true
      case Dangling => k == 1 && path[0] == '$'
  {
    match t
    case Many => StarNotSlash(path[..k]);
    case Deep => AnyDirsMeaning(path[..k]);
    case Rest => StarDot(path[..k]);
    case _ =>
  }

  lemma {:induction false} MeaningPreserved(ts: seq<Token>, path: string)
    requires LastOnly(ts) && '\n' !in path
    ensures Accepts(ts, path) <==> Matches(ts, path)
    decreases |ts|
  {
    if ts == [] {
    } else if ts == [Dangling] {
      DanglingAccepts(path);
    } else {
      AcceptsCons(ts, path);
      forall k | 0 <= k <= |path|
        ensures Accepts(ts[1..], path[k..]) <==> Matches(ts[1..], path[k..])
      {
        MeaningPreserved(ts[1..], path[k..]);
      }
      HeadCases(ts, path);
    }
  }

  lemma DanglingAccepts(path: string)
    ensures Accepts([Dangling], path) <==> path != "" && path[0] == '$'
  {
    assert ReOf([Dangling]) == Cat(Chr('$'), Eps);
    UnanchoredCons(Chr('$'), Eps, path);
    if path != "" && path[0] == '$' {
      assert path[..1] == "$";
      assert path[1..][..0] == "" && Lang(Eps, path[1..][..0]);
    }
  }

  /** The split at the first token, read off the token. */
  lemma HeadCases(ts: seq<Token>, path: string)
    requires |ts| > 1 || (|ts| == 1 && ts[0] != Dangling)
    requires LastOnly(ts) && '\n' !in path
    ensures Matches(ts, path) <==>
      exists k :: 0 <= k <= |path| && Lang(Piece(ts[0]), path[..k]) && Matches(ts[1..], path[k..])
  {
    forall k: nat | k <= |path| { LangHead(ts[0], path, k); }
    match ts[0]
    case Lit(c, _) =>
      if path != "" && path[0] == c { LangHead(ts[0], path, 1); }
    case One =>
      if path != "" && path[0] != '/' { LangHead(ts[0], path, 1); }
    case Rest =>
      LangHead(ts[0], path, |path|);
      assert path[|path|..] == "" && Matches(ts[1..], path[|path|..]);
    case _ =>
  }

  /** The expression that `Compile` builds parses, and accepts exactly the paths the pattern stands for. */
  lemma CompileMeaning(pattern: string, path: string)
    requires Supported(Tokens(pattern)) && '\n' !in path
    ensures var r := ParseRegexp("^" + RenderAll(Tokens(pattern)) + "$");
      r.Some? && (MatchString(r.value, path) <==> Matches(Tokens(pattern), path))
  {
    var ts := Tokens(pattern);
    TokensLastOnly(pattern);
    ParseRendered(ts);
    assert ("^" + RenderAll(ts) + "$")[1..] == RenderAll(ts) + "$";
    MeaningPreserved(ts, path);
  }
}
