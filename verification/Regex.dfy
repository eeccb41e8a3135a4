// The fragment of regular-expression syntax that ignore patterns compile to: its parser and its languages.
module Regex {
  import opened Common

  datatype Re = Eps | Chr(c: char) | Dot | NotSlash | Cat(first: Re, rest: Re) | Star(body: Re) | Opt(body: Re)

  /** `.` does not match a newline; `[^/]` does. */
  predicate Lang(re: Re, s: string)
    decreases re, |s|
  {
    match re
    case Eps => s == ""
    case Chr(c) => s == [c]
    case Dot => |s| == 1 && s[0] != '\n'
    case NotSlash => |s| == 1 && s[0] != '/'
    case Cat(a, b) => exists k :: 0 <= k <= |s| && Lang(a, s[..k]) && Lang(b, s[k..])
    case Star(a) => s == "" || exists k :: 0 < k <= |s| && Lang(a, s[..k]) && Lang(re, s[k..])
    case Opt(a) => s == "" || Lang(a, s)
  }

  /** A whole expression starts at the beginning of the text; it need not reach the end. */
  datatype Regexp = Regexp(re: Re, toEnd: bool)

  predicate MatchString(r: Regexp, s: string) {
    if r.toEnd then Lang(r.re, s) else exists k :: 0 <= k <= |s| && Lang(r.re, s[..k])
  }

  // ---- syntax -------------------------------------------------------------

  predicate Punctuation(c: char) {
    '!' <= c <= '/' || ':' <= c <= '@' || '[' <= c <= '`' || '{' <= c <= '~'
  }

  predicate Operator(c: char) {
    || c == '.' || c == '*' || c == '?' || c == '+' || c == '|' || c == '^' || c == '$' || c == '\\'
    || c == '(' || c == ')' || c == '[' || c == ']' || c == '{' || c == '}'
  }

  datatype Parsed = Fail | Ok(re: Re, left: string)

  function ParseAtom(s: string): (r: Parsed)
    ensures r.Ok? ==> |r.left| < |s|
    decreases |s|, 0
  {
    if s == "" then Fail
    else if s[0] == '.' then Ok(Dot, s[1..])
    else if "[^/]" <= s then Ok(NotSlash, s[4..])
    else if s[0] == '\\' then
      if |s| > 1 && Punctuation(s[1]) then Ok(Chr(s[1]), s[2..]) else Fail
    else if s[0] == '(' then
      var inner := ParseSeq(s[1..]);
      if inner.Ok? && inner.left != "" && inner.left[0] == ')' then Ok(inner.re, inner.left[1..]) else Fail
    else if Operator(s[0]) then Fail
    else Ok(Chr(s[0]), s[1..])
  }

  function ParsePiece(s: string): (r: Parsed)
    ensures r.Ok? ==> |r.left| < |s|
    decreases |s|, 1
  {
    var atom := ParseAtom(s);
    if atom.Fail? || atom.left == "" then atom
    else if atom.left[0] == '*' then Ok(Star(atom.re), atom.left[1..])
    else if atom.left[0] == '?' then Ok(Opt(atom.re), atom.left[1..])
    else atom
  }

  function ParseSeq(s: string): (r: Parsed)
    ensures r.Ok? ==> |r.left| <= |s|
    decreases |s|, 2
  {
    if s == "" || s[0] == ')' || s[0] == '$' then Ok(Eps, s)
    else
      var piece := ParsePiece(s);
      if piece.Fail? then Fail
      else
        var more := ParseSeq(piece.left);
        if more.Fail? then Fail else Ok(Cat(piece.re, more.re), more.left)
  }

  /** `^` sequence, then `$` or the end of the expression. */
  function ParseRegexp(s: string): Option<Regexp> {
    if s == "" || s[0] != '^' then None
    else
      var body := ParseSeq(s[1..]);
      if body.Fail? then None
      else if body.left == "$" then Some(Regexp(body.re, true))
      else if body.left == "" then Some(Regexp(body.re, false))
      else None
  }

  // ---- languages of the pieces --------------------------------------------

  lemma {:induction false} StarDot(s: string)
    requires '\n' !in s
    ensures Lang(Star(Dot), s)
  {
    if s == "" {
    } else {
      StarDot(s[1..]);
      assert Lang(Dot, s[..1]) && Lang(Star(Dot), s[1..]);
    }
  }

  lemma {:induction false} StarNotSlash(s: string)
    ensures Lang(Star(NotSlash), s) <==> '/' !in s
  {
    if s == "" {
    } else {
      StarNotSlash(s[1..]);
      assert s == [s[0]] + s[1..];
      if '/' !in s {
        assert Lang(NotSlash, s[..1]);
      }
      forall k | 0 < k <= |s| && Lang(NotSlash, s[..k]) && Lang(Star(NotSlash), s[k..])
        ensures '/' !in s
      {
        assert k == 1;
      }
    }
  }

  const ANY_DIRS: Re := Cat(Star(Dot), Cat(Chr('/'), Eps))

  lemma AnyDirsMeaning(s: string)
    requires '\n' !in s
    ensures Lang(ANY_DIRS, s) <==> s != "" && s[|s| - 1] == '/'
  {
    SlashLang();
    if s != "" && s[|s| - 1] == '/' {
      StarDot(s[..|s| - 1]);
      assert s[|s| - 1..] == "/";
    }
    forall k | 0 <= k <= |s| && Lang(Star(Dot), s[..k]) && Lang(Cat(Chr('/'), Eps), s[k..])
      ensures s != "" && s[|s| - 1] == '/'
    {
      assert s[k..] == "/";
    }
  }

  lemma SlashLang()
    ensures forall s :: Lang(Cat(Chr('/'), Eps), s) <==> s == "/"
  {
    forall s
      ensures Lang(Cat(Chr('/'), Eps), s) <==> s == "/"
    {
      if s == "/" {
        assert s[..1] == "/" && s[1..] == "";
      }
      forall k | 0 <= k <= |s| && Lang(Chr('/'), s[..k]) && Lang(Eps, s[k..])
        ensures s == "/"
      {
        assert s == s[..k] + s[k..];
      }
    }
  }
}
