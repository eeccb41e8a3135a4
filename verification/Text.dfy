// White space, decimal rendering, and unique splitting of rendered names.
module Text {
  /** The characters Unicode calls white space. */
  predicate Space(c: char) {
    || '\t' <= c <= '\r' || c == ' ' || c == '\U{85}' || c == '\U{A0}' || c == '\U{1680}'
    || '\U{2000}' <= c <= '\U{200A}' || c == '\U{2028}' || c == '\U{2029}' || c == '\U{202F}'
    || c == '\U{205F}' || c == '\U{3000}'
  }

  function Decimal(n: nat): (r: string)
    ensures r != "" && forall c :: c in r ==> '0' <= c <= '9'
  {
    if n < 10 then [(n + '0' as int) as char]
    else Decimal(n / 10) + [(n % 10 + '0' as int) as char]
  }

  /** The %d verb. */
  function Format(n: int): string {
    if n < 0 then "-" + Decimal(-n) else Decimal(n)
  }

  lemma {:induction false} DecimalInjective(a: nat, b: nat)
    requires Decimal(a) == Decimal(b)
    ensures a == b
  {
    var x, y := Decimal(a), Decimal(b);
    assert x[|x| - 1] == y[|y| - 1];
    assert a % 10 == b % 10;
    if a >= 10 && b >= 10 {
      assert x[..|x| - 1] == Decimal(a / 10) && y[..|y| - 1] == Decimal(b / 10);
      DecimalInjective(a / 10, b / 10);
    }
  }

  /** The number a text of digits stands for. */
  function Value(s: string): int {
    if s == "" then 0 else 10 * Value(s[..|s| - 1]) + (s[|s| - 1] as int - '0' as int)
  }

  /** A decimal stands for its number, and has no superfluous zero in front. */
  lemma {:induction false} DecimalValue(n: nat)
    ensures Value(Decimal(n)) == n && (n > 0 ==> Decimal(n)[0] != '0')
  {
    var s := Decimal(n);
    if n < 10 {
      assert s[..0] == "";
    } else {
      assert s[..|s| - 1] == Decimal(n / 10);
      DecimalValue(n / 10);
    }
  }

  function Pow10(k: nat): nat {
    if k == 0 then 1 else 10 * Pow10(k - 1)
  }

  lemma {:induction false} DecimalLength(n: nat, k: nat)
    requires k > 0 && n < Pow10(k)
    ensures |Decimal(n)| <= k
  {
    if n < 10 {
    } else {
      assert Pow10(k) == 10 * Pow10(k - 1);
      DecimalLength(n / 10, k - 1);
    }
  }

  /** The first separator splits a text in one way. */
  lemma {:induction false} FirstSplit(p: string, q: string, x: string, y: string, sep: char)
    requires sep !in p && sep !in q
    requires p + [sep] + x == q + [sep] + y
    ensures p == q && x == y
  {
    var s, t := p + [sep] + x, q + [sep] + y;
    if p == "" || q == "" {
      assert s[0] == t[0];
      assert s[1..] == t[1..];
      assert p == "" ==> s[1..] == x;
      assert q == "" ==> t[1..] == y;
    } else {
      assert s[0] == p[0] && t[0] == q[0];
      assert s[1..] == p[1..] + [sep] + x && t[1..] == q[1..] + [sep] + y;
      FirstSplit(p[1..], q[1..], x, y, sep);
      assert p == [p[0]] + p[1..] && q == [q[0]] + q[1..];
    }
  }

  /** So does the last one. */
  lemma LastSplit(p: string, q: string, x: string, y: string, sep: char)
    requires sep !in x && sep !in y
    requires p + [sep] + x == q + [sep] + y
    ensures p == q && x == y
  {
    if |p| < |q| {
      LaterSeparator(p, q, x, y, sep);
    } else if |q| < |p| {
      LaterSeparator(q, p, y, x, sep);
    } else {
      var s, t := p + [sep] + x, q + [sep] + y;
      assert s[..|p|] == p && t[..|q|] == q && s[|p| + 1..] == x && t[|q| + 1..] == y;
    }
  }

  lemma LaterSeparator(p: string, q: string, x: string, y: string, sep: char)
    requires p + [sep] + x == q + [sep] + y && |p| < |q|
    ensures sep in x
  {
    var s, t := p + [sep] + x, q + [sep] + y;
    assert t[|q|] == sep && s[|q|] == x[|q| - |p| - 1];
  }

  lemma DecimalSplit(a: nat, b: nat, x: string, y: string)
    requires Decimal(a) + "-" + x == Decimal(b) + "-" + y
    ensures a == b && x == y
  {
    FirstSplit(Decimal(a), Decimal(b), x, y, '-');
    DecimalInjective(a, b);
  }

  /** Only a negative number starts with a dash. */
  lemma FormatHead(a: int, x: string)
    ensures (Format(a) + "-" + x)[0] == '-' <==> a < 0
    ensures a < 0 ==> (Format(a) + "-" + x)[1..] == Decimal(-a) + "-" + x
  {
    assert a >= 0 ==> Decimal(a)[0] in Decimal(a);
  }

  /** A formatted integer followed by a dash is read back in one way. */
  lemma FormatSplit(a: int, b: int, x: string, y: string)
    requires Format(a) + "-" + x == Format(b) + "-" + y
    ensures a == b && x == y
  {
    FormatHead(a, x);
    FormatHead(b, y);
    if a < 0 {
      DecimalSplit(-a, -b, x, y);
    } else {
      DecimalSplit(a, b, x, y);
    }
  }
}
