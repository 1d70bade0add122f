/** The usual failure-free optional value. */
module Options {
  datatype Option<+T> = None | Some(value: T)
}

/** String operations of the Python standard library that the modelled code relies on. */
module Text {

  predicate StartsWith(s: string, prefix: string) {
    |prefix| <= |s| && s[..|prefix|] == prefix
  }

  ghost predicate Contains(s: string, part: string) {
    exists i | 0 <= i <= |s| :: StartsWith(s[i..], part)
  }

  lemma ContainsInSuffix(s: string, n: nat, part: string)
    requires n <= |s|
    ensures Contains(s[n..], part) ==> Contains(s, part)
  {
    if Contains(s[n..], part) {
      var i :| 0 <= i <= |s[n..]| && StartsWith(s[n..][i..], part);
      assert s[n..][i..] == s[n + i..];
    }
  }

  function Count(c: char, s: string): nat {
    if s == "" then 0 else (if s[0] == c then 1 else 0) + Count(c, s[1..])
  }

  lemma {:induction false} CountConcat(c: char, a: string, b: string)
    ensures Count(c, a + b) == Count(c, a) + Count(c, b)
  {
    if a == "" {
      assert a + b == b;
    } else {
      assert (a + b)[1..] == a[1..] + b;
      CountConcat(c, a[1..], b);
    }
  }

  lemma {:induction false} CountAbsent(c: char, s: string)
    requires c !in s
    ensures Count(c, s) == 0
  {
    if s != "" { CountAbsent(c, s[1..]); }
  }

  function FirstIndex(c: char, s: string): (n: nat)
    requires c in s
    ensures n < |s| && s[n] == c && c !in s[..n]
  {
    if s[0] == c then 0 else 1 + FirstIndex(c, s[1..])
  }

  // ---------------------------------------------------------------- joining and splitting

  /** `sep.join(parts)`. */
  function Join(sep: char, parts: seq<string>): string {
    if parts == [] then "" else if |parts| == 1 then parts[0] else parts[0] + [sep] + Join(sep, parts[1..])
  }

  /** `s.split(sep)`: the one way of writing a text as a join of parts without the separator. */
  function Split(sep: char, s: string): (r: seq<string>)
    ensures r != [] && Join(sep, r) == s
    ensures forall p | p in r :: sep !in p
  {
    if sep !in s then [s]
    else
      var n := FirstIndex(sep, s);
      assert s == s[..n] + [sep] + s[n + 1..];
      [s[..n]] + Split(sep, s[n + 1..])
  }

  lemma {:induction false} SplitOfJoin(sep: char, parts: seq<string>)
    requires parts != [] && forall p | p in parts :: sep !in p
    ensures Split(sep, Join(sep, parts)) == parts
  {
    assert parts[0] in parts;
    if |parts| > 1 {
      var first, rest := parts[0], Join(sep, parts[1..]);
      var s := first + [sep] + rest;
      assert s == Join(sep, parts) && s[|first|] == sep;
      assert forall i | 0 <= i < |first| :: s[i] == first[i];
      assert FirstIndex(sep, s) == |first|;
      assert s[..|first|] == first && s[|first| + 1..] == rest;
      SplitOfJoin(sep, parts[1..]);
    }
  }

  // ---------------------------------------------------------------- decimal numerals

  predicate Digit(c: char) {
    '0' <= c <= '9'
  }

  function DigitValue(c: char): nat
    requires Digit(c)
  {
    c as int - '0' as int
  }

  function DigitOf(n: nat): (c: char)
    requires n < 10
    ensures Digit(c) && DigitValue(c) == n
  {
    '0' + n as char
  }

  /** `str(n)` of a natural number. */
  function Decimal(n: nat): (s: string)
    ensures s != "" && forall c | c in s :: Digit(c)
  {
    if n < 10 then [DigitOf(n)] else Decimal(n / 10) + [DigitOf(n % 10)]
  }

  /** `int(s)` of a text of digits. */
  function Value(s: string): nat
    requires forall c | c in s :: Digit(c)
  {
    if s == "" then 0
    else
      assert s[|s| - 1] in s && forall c | c in s[..|s| - 1] :: c in s;
      10 * Value(s[..|s| - 1]) + DigitValue(s[|s| - 1])
  }

  lemma {:induction false} ValueOfDecimal(n: nat)
    ensures Value(Decimal(n)) == n
  {
    if n >= 10 {
      ValueOfDecimal(n / 10);
      assert Decimal(n)[..|Decimal(n)| - 1] == Decimal(n / 10);
    } else {
      assert Decimal(n)[..0] == "";
    }
  }

  lemma DecimalIsInjective(m: nat, n: nat)
    requires Decimal(m) == Decimal(n)
    ensures m == n
  {
    ValueOfDecimal(m);
    ValueOfDecimal(n);
  }

  // ---------------------------------------------------------------- lines

  lemma NoNewlineAfter(a: string, x: string)
    requires '\n' !in x
    ensures forall j | |a| < j < |a| + 1 + |x| :: (a + "\n" + x)[j] != '\n'
  {
    forall j | |a| < j < |a| + 1 + |x| ensures (a + "\n" + x)[j] != '\n' {
      assert (a + "\n" + x)[j] == x[j - |a| - 1];
    }
  }

  /** A text is taken apart at its last newline in one way only. */
  lemma LastLineIsUnique(a: string, x: string, b: string, y: string)
    requires '\n' !in x && '\n' !in y && a + "\n" + x == b + "\n" + y
    ensures a == b && x == y
  {
    var s := a + "\n" + x;
    assert s[|a|] == '\n' && s[|b|] == '\n';
    NoNewlineAfter(a, x);
    NoNewlineAfter(b, y);
    assert s[..|a|] == a && s[..|b|] == b && s[|a| + 1..] == x && s[|b| + 1..] == y;
  }
}
