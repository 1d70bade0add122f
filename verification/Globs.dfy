/**
 The glob compiler (`engine/policy/globs.py`) and what it means.

 `Translate` emits the text of a regular expression, as the program does. That text is read back
 by a parser for the fragment of Python's `re` syntax it can contain, the parsed expression is
 given the usual position-based meaning (`.` refuses a newline, `$` also accepts the position
 before a final newline), and the result is compared with `Denotes`, a direct meaning of globs
 that mentions no regular expression.
 */
module Globs {
  import opened Text
  import opened Options

  // ---------------------------------------------------------------- regular expressions

  datatype Regex =
    | Empty
    | Begin
    | End
    | Chr(c: char)
    | Any
    | NotSlash
    | Star(body: Regex)
    | Opt(body: Regex)
    | Cat(first: Regex, rest: Regex)

  /** `k` cuts the stretch from `i` to `j` in two. */
  predicate Cuts(i: nat, k: nat, j: nat) {
    i <= k <= j
  }

  /** `re` matches exactly the stretch `s[i..j]` of the subject `s`. */
  predicate Matches(re: Regex, s: string, i: nat, j: nat)
    requires i <= j <= |s|
    decreases re, j - i
  {
    match re
    case Empty => i == j
    case Begin => i == j == 0
    case End => i == j && (j == |s| || (j + 1 == |s| && s[j] == '\n'))
    case Chr(c) => j == i + 1 && s[i] == c
    case Any => j == i + 1 && s[i] != '\n'
    case NotSlash => j == i + 1 && s[i] != '/'
    case Star(b) => i == j || exists k: nat | k <= j && Cuts(i + 1, k, j) :: Matches(b, s, i, k) && Matches(re, s, k, j)
    case Opt(b) => i == j || Matches(b, s, i, j)
    case Cat(a, b) => exists k: nat | k <= j && Cuts(i, k, j) :: Matches(a, s, i, k) && Matches(b, s, k, j)
  }

  /** `pattern.match(s)`: some match starts at position 0. */
  predicate MatchesSomePrefix(re: Regex, s: string) {
    exists j | 0 <= j <= |s| :: Matches(re, s, 0, j)
  }

  // ---------------------------------------------------------------- reading `re` syntax

  datatype Parsed = Parsed(re: Regex, rest: string) | Malformed

  const QUANTIFIERS := {'*', '+', '?'}
  const METACHARACTERS := {'.', '\\', '[', '{', '(', ')', '*', '+', '?', '^', '$', '|'}

  predicate Alphanumeric(c: char) {
    '0' <= c <= '9' || 'a' <= c <= 'z' || 'A' <= c <= 'Z'
  }

  predicate QuantifierAhead(t: string) {
    t != "" && t[0] in QUANTIFIERS
  }

  /** The text starts with the class of all characters but the separator. */
  predicate ClassAhead(t: string) {
    |t| >= 4 && t[0] == '[' && t[1] == '^' && t[2] == '/' && t[3] == ']'
  }

  /** The text starts with the opening of a non-capturing group. */
  predicate GroupAhead(t: string) {
    |t| >= 3 && t[0] == '(' && t[1] == '?' && t[2] == ':'
  }

  function ParseAtom(t: string): (r: Parsed)
    requires t != ""
    ensures r.Parsed? ==> |r.rest| < |t|
    decreases |t|, 0
  {
    if t[0] == '.' then Parsed(Any, t[1..])
    else if t[0] == '^' then Parsed(Begin, t[1..])
    else if t[0] == '$' then Parsed(End, t[1..])
    else if ClassAhead(t) then Parsed(NotSlash, t[4..])
    else if t[0] == '\\' then
      if |t| > 1 && !Alphanumeric(t[1]) then Parsed(Chr(t[1]), t[2..]) else Malformed
    else if GroupAhead(t) then
      var inner := ParseSequence(t[3..]);
      if inner.Parsed? && inner.rest != "" && inner.rest[0] == ')' then Parsed(inner.re, inner.rest[1..]) else Malformed
    else if t[0] in METACHARACTERS then Malformed
    else Parsed(Chr(t[0]), t[1..])
  }

  function ParseQuantified(t: string): (r: Parsed)
    requires t != ""
    ensures r.Parsed? ==> |r.rest| < |t|
    decreases |t|, 1
  {
    var a := ParseAtom(t);
    if a.Malformed? || !QuantifierAhead(a.rest) then a
    else if QuantifierAhead(a.rest[1..]) || a.rest[0] == '+' then Malformed
    else Parsed(if a.rest[0] == '*' then Star(a.re) else Opt(a.re), a.rest[1..])
  }

  function ParseSequence(t: string): (r: Parsed)
    ensures r.Parsed? ==> |r.rest| <= |t|
    decreases |t|, 2
  {
    if t == "" || t[0] == ')' then Parsed(Empty, t)
    else
      var a := ParseQuantified(t);
      if a.Malformed? then Malformed
      else
        var b := ParseSequence(a.rest);
        if b.Malformed? then Malformed else Parsed(Cat(a.re, b.re), b.rest)
  }

  /** `re.compile(text)`, for texts of the fragment; `None` is a text outside it. */
  function Compile(text: string): Option<Regex> {
    var p := ParseSequence(text);
    if p.Parsed? && p.rest == "" then Some(p.re) else None
  }

  // ---------------------------------------------------------------- the translation

  /** The characters `re.escape` puts a backslash in front of. */
  const ESCAPED := {
    '(', ')', '[', ']', '{', '}', '?', '*', '+', '-', '|', '^', '$', '\\', '.', '&', '~', '#',
    ' ', '\t', '\n', '\r', '\U{B}', '\U{C}'
  }

  function Escape(c: char): string {
    if c in ESCAPED then ['\\', c] else [c]
  }

  predicate DoubleStarAhead(p: string) {
    |p| >= 2 && p[0] == '*' && p[1] == '*'
  }

  predicate DirectoriesAhead(p: string) {
    DoubleStarAhead(p) && |p| >= 3 && p[2] == '/'
  }

  function PieceWidth(p: string): nat
    requires p != ""
    ensures 1 <= PieceWidth(p) <= |p|
  {
    if DirectoriesAhead(p) then 3 else if DoubleStarAhead(p) then 2 else 1
  }

  function PieceText(p: string): string
    requires p != ""
  {
    if DirectoriesAhead(p) then "(?:.*/)?"
    else if DoubleStarAhead(p) then ".*"
    else if p[0] == '*' then "[^/]*"
    else if p[0] == '?' then "[^/]"
    else Escape(p[0])
  }

  function BodyText(p: string): string
    decreases |p|
  {
    if p == "" then "" else PieceText(p) + BodyText(p[PieceWidth(p)..])
  }

  function Translation(p: string): string {
    "^" + BodyText(p) + "$"
  }

  /** The compiler's loop over the pattern. */
  method Translate(pattern: string) returns (text: string)
    ensures text == Translation(pattern)
  {
    var out: string := "";
    var i, n := 0, |pattern|;
    while i < n
      invariant 0 <= i <= n
      invariant out + BodyText(pattern[i..]) == BodyText(pattern)
      decreases n - i
    {
      ghost var here, before := pattern[i..], out;
      var piece: string;
      if DirectoriesAhead(pattern[i..]) {
        piece, i := "(?:.*/)?", i + 3;
      } else if DoubleStarAhead(pattern[i..]) {
        piece, i := ".*", i + 2;
      } else if pattern[i] == '*' {
        piece, i := "[^/]*", i + 1;
      } else if pattern[i] == '?' {
        piece, i := "[^/]", i + 1;
      } else {
        piece, i := Escape(pattern[i]), i + 1;
      }
      assert piece == PieceText(here);
      assert pattern[i..] == here[PieceWidth(here)..];
      out := out + piece;
      Regroup(before, piece, BodyText(pattern[i..]));
    }
    assert pattern[n..] == "";
    text := "^" + out + "$";
  }

  lemma Regroup(a: string, b: string, c: string)
    ensures a + (b + c) == (a + b) + c
  {}

  // ---------------------------------------------------------------- what a glob means

  /** Zero or more directory names, each followed by its separator. */
  predicate IsDirectories(t: string)
    decreases |t|
  {
    t == "" || exists n | 0 <= n < |t| :: t[n] == '/' && '/' !in t[..n] && IsDirectories(t[n + 1..])
  }

  /**
   The direct meaning of a glob: a leading `**` with its separator stands for zero or more whole
   directories, any other `**` for any text, `*` for text inside one segment, `?` for one
   character inside a segment, and every other character for itself.
   */
  predicate Denotes(p: string, s: string)
    decreases |p|
  {
    if p == "" then s == ""
    else if DirectoriesAhead(p) then
      exists k | 0 <= k <= |s| :: IsDirectories(s[..k]) && Denotes(p[3..], s[k..])
    else if DoubleStarAhead(p) then
      exists k | 0 <= k <= |s| :: Denotes(p[2..], s[k..])
    else if p[0] == '*' then
      exists k | 0 <= k <= |s| :: '/' !in s[..k] && Denotes(p[1..], s[k..])
    else s != "" && (if p[0] == '?' then s[0] != '/' else s[0] == p[0]) && Denotes(p[1..], s[1..])
  }

  // ---------------------------------------------------------------- the text parses as intended

  ghost function PieceRegex(p: string): Regex
    requires p != ""
  {
    if DirectoriesAhead(p) then Opt(Cat(Star(Any), Cat(Chr('/'), Empty)))
    else if DoubleStarAhead(p) then Star(Any)
    else if p[0] == '*' then Star(NotSlash)
    else if p[0] == '?' then NotSlash
    else Chr(p[0])
  }

  ghost function BodyRegex(p: string): Regex
    decreases |p|
  {
    if p == "" then Cat(End, Empty) else Cat(PieceRegex(p), BodyRegex(p[PieceWidth(p)..]))
  }

  lemma NoQuantifierStartsBody(p: string)
    ensures BodyText(p) + "$" != ""
    ensures (BodyText(p) + "$")[0] != ')' && !QuantifierAhead(BodyText(p) + "$")
  {
    if p != "" {
      assert PieceText(p) != "" && (BodyText(p) + "$")[0] == PieceText(p)[0];
    }
  }

  lemma AtomAlone(t: string, re: Regex, tail: string)
    requires t != "" && ParseAtom(t) == Parsed(re, tail) && !QuantifierAhead(tail)
    ensures ParseQuantified(t) == Parsed(re, tail)
  {}

  lemma AtomQuantified(t: string, re: Regex, q: char, tail: string)
    requires t != "" && (q == '*' || q == '?')
    requires ParseAtom(t) == Parsed(re, [q] + tail) && !QuantifierAhead(tail)
    ensures ParseQuantified(t) == Parsed(if q == '*' then Star(re) else Opt(re), tail)
  {
    assert ([q] + tail)[1..] == tail;
  }

  lemma ItemThenSequence(t: string, re: Regex, middle: string, more: Regex, tail: string)
    requires t != "" && t[0] != ')'
    requires ParseQuantified(t) == Parsed(re, middle)
    requires ParseSequence(middle) == Parsed(more, tail)
    ensures ParseSequence(t) == Parsed(Cat(re, more), tail)
  {}

  lemma DirectoriesPieceParses(tail: string)
    requires !QuantifierAhead(tail)
    ensures ParseQuantified("(?:.*/)?" + tail) == Parsed(Opt(Cat(Star(Any), Cat(Chr('/'), Empty))), tail)
  {
    var t := "(?:.*/)?" + tail;
    var close := [')'] + (['?'] + tail);
    var slash := ['/'] + close;
    var inner := ['.'] + (['*'] + slash);
    assert GroupAhead(t) && t[3..] == inner;
    assert ParseAtom(inner) == Parsed(Any, ['*'] + slash);
    AtomQuantified(inner, Any, '*', slash);
    assert slash[1..] == close && ParseAtom(slash) == Parsed(Chr('/'), close);
    AtomAlone(slash, Chr('/'), close);
    ItemThenSequence(slash, Chr('/'), close, Empty, close);
    ItemThenSequence(inner, Star(Any), slash, Cat(Chr('/'), Empty), close);
    assert close[1..] == ['?'] + tail;
    assert ParseAtom(t) == Parsed(Cat(Star(Any), Cat(Chr('/'), Empty)), ['?'] + tail);
    AtomQuantified(t, Cat(Star(Any), Cat(Chr('/'), Empty)), '?', tail);
  }

  lemma NotSlashParses(tail: string)
    ensures ParseAtom("[^/]" + tail) == Parsed(NotSlash, tail)
  {
    var t := "[^/]" + tail;
    assert ClassAhead(t) && t[4..] == tail;
  }

  lemma LiteralParses(c: char, tail: string)
    ensures ParseAtom(Escape(c) + tail) == Parsed(Chr(c), tail)
  {
    var t := Escape(c) + tail;
    if c in ESCAPED {
      assert t[0] == '\\' && t[1] == c && t[2..] == tail;
    } else {
      assert t[0] == c && t[1..] == tail;
      assert METACHARACTERS <= ESCAPED;
    }
  }

  lemma PieceParses(p: string, tail: string)
    requires p != "" && !QuantifierAhead(tail)
    ensures ParseQuantified(PieceText(p) + tail) == Parsed(PieceRegex(p), tail)
  {
    var t := PieceText(p) + tail;
    if DirectoriesAhead(p) {
      DirectoriesPieceParses(tail);
    } else if DoubleStarAhead(p) {
      assert t[1..] == ['*'] + tail;
      AtomQuantified(t, Any, '*', tail);
    } else if p[0] == '*' {
      NotSlashParses(['*'] + tail);
      assert t == "[^/]" + (['*'] + tail);
      AtomQuantified(t, NotSlash, '*', tail);
    } else if p[0] == '?' {
      NotSlashParses(tail);
      AtomAlone(t, NotSlash, tail);
    } else {
      LiteralParses(p[0], tail);
      AtomAlone(t, Chr(p[0]), tail);
    }
  }

  lemma {:induction false} BodyParses(p: string)
    ensures ParseSequence(BodyText(p) + "$") == Parsed(BodyRegex(p), "")
    decreases |p|
  {
    var t := BodyText(p) + "$";
    NoQuantifierStartsBody(p);
    if p == "" {
      assert t == "$" && t[1..] == "";
      AtomAlone(t, End, "");
      ItemThenSequence(t, End, "", Empty, "");
    } else {
      var rest := p[PieceWidth(p)..];
      var tail := BodyText(rest) + "$";
      NoQuantifierStartsBody(rest);
      PieceParses(p, tail);
      assert t == PieceText(p) + tail;
      BodyParses(rest);
      ItemThenSequence(t, PieceRegex(p), tail, BodyRegex(rest), "");
    }
  }

  /** What the compiler emits is always well-formed, whatever characters the pattern holds. */
  lemma TranslationCompiles(p: string)
    ensures Compile(Translation(p)) == Some(Cat(Begin, BodyRegex(p)))
  {
    var t := Translation(p);
    var tail := BodyText(p) + "$";
    assert t[1..] == tail;
    NoQuantifierStartsBody(p);
    BodyParses(p);
    AtomAlone(t, Begin, tail);
    ItemThenSequence(t, Begin, tail, BodyRegex(p), "");
  }

  // ---------------------------------------------------------------- and means the same

  lemma {:induction false} StarOfAny(s: string, i: nat, j: nat)
    requires i <= j <= |s|
    ensures Matches(Star(Any), s, i, j) <==> '\n' !in s[i..j]
    decreases j - i
  {
    if i < j {
      StarOfAny(s, i + 1, j);
      assert s[i..j] == [s[i]] + s[i + 1..j];
      if s[i] != '\n' { assert Cuts(i + 1, i + 1, j) && Matches(Any, s, i, i + 1); }
    }
  }

  lemma {:induction false} StarOfNotSlash(s: string, i: nat, j: nat)
    requires i <= j <= |s|
    ensures Matches(Star(NotSlash), s, i, j) <==> '/' !in s[i..j]
    decreases j - i
  {
    if i < j {
      StarOfNotSlash(s, i + 1, j);
      assert s[i..j] == [s[i]] + s[i + 1..j];
      if s[i] != '/' { assert Cuts(i + 1, i + 1, j) && Matches(NotSlash, s, i, i + 1); }
    }
  }

  lemma {:induction false} DirectoriesEndInSlash(t: string)
    ensures IsDirectories(t) <==> t == "" || t[|t| - 1] == '/'
    decreases |t|
  {
    if t != "" {
      if IsDirectories(t) {
        var n :| 0 <= n < |t| && t[n] == '/' && '/' !in t[..n] && IsDirectories(t[n + 1..]);
        DirectoriesEndInSlash(t[n + 1..]);
      }
      if t[|t| - 1] == '/' {
        var n := FirstIndex('/', t);
        DirectoriesEndInSlash(t[n + 1..]);
      }
    }
  }

  lemma SlashAlone(s: string, k: nat, j: nat)
    requires k <= j <= |s|
    ensures Matches(Cat(Chr('/'), Empty), s, k, j) <==> j == k + 1 && s[k] == '/'
  {
    if j == k + 1 && s[k] == '/' {
      assert Cuts(k, j, j) && Matches(Chr('/'), s, k, j) && Matches(Empty, s, j, j);
    }
  }

  lemma AnyThenSlash(s: string, i: nat, j: nat)
    requires i <= j <= |s| && '\n' !in s
    ensures Matches(Cat(Star(Any), Cat(Chr('/'), Empty)), s, i, j) <==> i < j && s[j - 1] == '/'
  {
    forall k: nat | k <= j { SlashAlone(s, k, j); }
    if i < j {
      StarOfAny(s, i, j - 1);
      assert Cuts(i, j - 1, j) && Matches(Star(Any), s, i, j - 1);
    }
  }

  lemma DirectoriesPiece(s: string, i: nat, j: nat)
    requires i <= j <= |s| && '\n' !in s
    ensures Matches(Opt(Cat(Star(Any), Cat(Chr('/'), Empty))), s, i, j) <==> IsDirectories(s[i..j])
  {
    DirectoriesEndInSlash(s[i..j]);
    AnyThenSlash(s, i, j);
  }

  /** Every piece but the last stands for the text the glob gives it, whatever follows. */
  ghost predicate PieceDenotes(p: string, t: string)
    requires p != ""
  {
    if DirectoriesAhead(p) then IsDirectories(t)
    else if DoubleStarAhead(p) then true
    else if p[0] == '*' then '/' !in t
    else |t| == 1 && if p[0] == '?' then t[0] != '/' else t[0] == p[0]
  }

  lemma PieceMeaning(p: string, s: string, i: nat, j: nat)
    requires p != "" && i <= j <= |s| && '\n' !in s
    ensures Matches(PieceRegex(p), s, i, j) <==> PieceDenotes(p, s[i..j])
  {
    DirectoriesPiece(s, i, j);
    StarOfAny(s, i, j);
    StarOfNotSlash(s, i, j);
  }

  lemma DenotesByPieces(p: string, s: string)
    requires p != ""
    ensures Denotes(p, s) <==>
            exists k | 0 <= k <= |s| :: PieceDenotes(p, s[..k]) && Denotes(p[PieceWidth(p)..], s[k..])
  {
    if !DoubleStarAhead(p) && p[0] != '*' {
      if Denotes(p, s) {
        assert PieceDenotes(p, s[..1]) && Denotes(p[PieceWidth(p)..], s[1..]);
      }
    }
  }

  lemma {:induction false} BodyMeaning(p: string, s: string, i: nat, j: nat)
    requires i <= j <= |s| && '\n' !in s
    ensures Matches(BodyRegex(p), s, i, j) <==> j == |s| && Denotes(p, s[i..])
    decreases |p|
  {
    if p == "" {
      EndMeaning(s, i, j);
    } else {
      var rest := p[PieceWidth(p)..];
      forall k | i <= k <= j
        ensures Matches(BodyRegex(rest), s, k, j) <==> j == |s| && Denotes(rest, s[k..])
      {
        BodyMeaning(rest, s, k, j);
      }
      CatMeaning(p, s, i, j);
    }
  }

  lemma EndMeaning(s: string, i: nat, j: nat)
    requires i <= j <= |s| && '\n' !in s
    ensures Matches(Cat(End, Empty), s, i, j) <==> i == j == |s|
  {
    if i == j == |s| {
      assert Cuts(i, i, j) && Matches(End, s, i, i) && Matches(Empty, s, i, j);
    }
  }

  /** One step of the induction: the first piece takes `s[i..k]`, the others the remainder. */
  ghost predicate SplitAt(p: string, s: string, i: nat, k: nat)
    requires p != "" && i <= k <= |s|
  {
    PieceDenotes(p, s[i..k]) && Denotes(p[PieceWidth(p)..], s[k..])
  }

  lemma DenotesBySplit(p: string, s: string, i: nat)
    requires p != "" && i <= |s|
    ensures Denotes(p, s[i..]) <==> exists k | i <= k <= |s| :: SplitAt(p, s, i, k)
  {
    var here := s[i..];
    DenotesByPieces(p, here);
    forall k | i <= k <= |s|
      ensures SplitAt(p, s, i, k) <==> PieceDenotes(p, here[..k - i]) && Denotes(p[PieceWidth(p)..], here[k - i..])
    {
      assert here[..k - i] == s[i..k] && here[k - i..] == s[k..];
    }
    if Denotes(p, here) {
      var m :| 0 <= m <= |here| && PieceDenotes(p, here[..m]) && Denotes(p[PieceWidth(p)..], here[m..]);
      assert SplitAt(p, s, i, i + m);
    }
  }

  lemma CatSplits(p: string, s: string, i: nat, j: nat) returns (k: nat)
    requires i <= j <= |s| && '\n' !in s && p != ""
    requires Matches(BodyRegex(p), s, i, j)
    ensures i <= k <= j && PieceDenotes(p, s[i..k]) && Matches(BodyRegex(p[PieceWidth(p)..]), s, k, j)
  {
    k :| k <= j && Cuts(i, k, j) && Matches(PieceRegex(p), s, i, k) && Matches(BodyRegex(p[PieceWidth(p)..]), s, k, j);
    PieceMeaning(p, s, i, k);
  }

  lemma CatJoins(p: string, s: string, i: nat, k: nat, j: nat)
    requires i <= k <= j <= |s| && '\n' !in s && p != ""
    requires PieceDenotes(p, s[i..k]) && Matches(BodyRegex(p[PieceWidth(p)..]), s, k, j)
    ensures Matches(BodyRegex(p), s, i, j)
  {
    PieceMeaning(p, s, i, k);
    assert Cuts(i, k, j);
  }

  lemma CatMeaning(p: string, s: string, i: nat, j: nat)
    requires i <= j <= |s| && '\n' !in s && p != ""
    requires var rest := p[PieceWidth(p)..];
             forall k | i <= k <= j :: Matches(BodyRegex(rest), s, k, j) <==> j == |s| && Denotes(rest, s[k..])
    ensures Matches(BodyRegex(p), s, i, j) <==> j == |s| && Denotes(p, s[i..])
  {
    DenotesBySplit(p, s, i);
    if Matches(BodyRegex(p), s, i, j) {
      var k := CatSplits(p, s, i, j);
      assert SplitAt(p, s, i, k);
    }
    if j == |s| && Denotes(p, s[i..]) {
      var k :| i <= k <= |s| && SplitAt(p, s, i, k);
      CatJoins(p, s, i, k, j);
    }
  }

  /** Does the compiled pattern match the candidate? (`translate(pattern).match(candidate)`) */
  predicate CompiledMatch(pattern: string, candidate: string) {
    var re := Compile(Translation(pattern));
    re.Some? && MatchesSomePrefix(re.value, candidate)
  }

  /** Compilation preserves meaning, for every pattern and every path without a newline. */
  lemma GlobTranslation(p: string, s: string)
    requires '\n' !in s
    ensures CompiledMatch(p, s) <==> Denotes(p, s)
  {
    TranslationCompiles(p);
    assert s[0..] == s;
    forall j | 0 <= j <= |s|
      ensures Matches(Cat(Begin, BodyRegex(p)), s, 0, j) <==> j == |s| && Denotes(p, s)
    {
      BeginMeaning(BodyRegex(p), s, j);
      BodyMeaning(p, s, 0, j);
    }
    if Denotes(p, s) { assert Matches(Cat(Begin, BodyRegex(p)), s, 0, |s|); }
  }

  lemma BeginMeaning(re: Regex, s: string, j: nat)
    requires j <= |s|
    ensures Matches(Cat(Begin, re), s, 0, j) <==> Matches(re, s, 0, j)
  {
    assert Cuts(0, 0, j) && Matches(Begin, s, 0, 0);
  }

  // ---------------------------------------------------------------- newlines

  /** The pattern of `?` and `/` that spells a text. */
  function Spelled(x: string): string {
    if x == "" then "" else [if x[0] == '/' then '/' else '?'] + Spelled(x[1..])
  }

  lemma SpelledPiece(x: string)
    requires x != ""
    ensures var p := Spelled(x);
            && PieceWidth(p) == 1 && p[1..] == Spelled(x[1..])
            && PieceRegex(p) == (if x[0] == '/' then Chr('/') else NotSlash)
            && !DirectoriesAhead(p) && !DoubleStarAhead(p)
  {
    assert Spelled(x)[1..] == Spelled(x[1..]);
  }

  lemma {:induction false} SpelledFixesTheLength(x: string, s: string)
    requires Denotes(Spelled(x), s)
    ensures |s| == |x|
  {
    if x != "" {
      SpelledPiece(x);
      SpelledFixesTheLength(x[1..], s[1..]);
    }
  }

  /** The expression for a spelled text stops in front of a final newline. */
  lemma {:induction false} SpelledStopsEarly(x: string, s: string, i: nat)
    requires i <= |s| && s[i..] == x + "\n"
    ensures Matches(BodyRegex(Spelled(x)), s, i, i + |x|)
    decreases |x|
  {
    var j := i + |x|;
    assert s[j] == s[i..][|x|] == '\n';
    if x == "" {
      assert Cuts(i, i, i) && Matches(End, s, i, i) && Matches(Empty, s, i, i);
    } else {
      SpelledPiece(x);
      assert s[i] == s[i..][0] == x[0];
      assert s[i + 1..] == s[i..][1..] == x[1..] + "\n";
      SpelledStopsEarly(x[1..], s, i + 1);
      assert Cuts(i, i + 1, j) && Matches(PieceRegex(Spelled(x)), s, i, i + 1);
    }
  }

  /** `$` overlooks a final newline: every path with one is matched by a pattern that does not denote it. */
  lemma FinalNewlineIsOverlooked(x: string)
    ensures CompiledMatch(Spelled(x), x + "\n") && !Denotes(Spelled(x), x + "\n")
  {
    var p, s := Spelled(x), x + "\n";
    TranslationCompiles(p);
    assert s[0..] == s;
    SpelledStopsEarly(x, s, 0);
    BeginMeaning(BodyRegex(p), s, |x|);
    if Denotes(p, s) { SpelledFixesTheLength(x, s); }
  }

  lemma EveryTextIsAny(s: string)
    ensures Denotes("**", s)
  {
    var p := "**";
    assert DoubleStarAhead(p) && !DirectoriesAhead(p) && p[2..] == "";
    assert s[|s|..] == "" && Denotes("", s[|s|..]);
  }

  lemma AnyStopsAtANewline(s: string, n: nat, j: nat)
    requires n + 1 < |s| && s[n] == '\n' && j <= |s|
    ensures !Matches(Cat(Star(Any), Cat(End, Empty)), s, 0, j)
  {
    forall k: nat | k <= j && Cuts(0, k, j)
      ensures !(Matches(Star(Any), s, 0, k) && Matches(Cat(End, Empty), s, k, j))
    {
      StarOfAny(s, 0, k);
      if n < k { assert s[0..k][n] == '\n'; }
    }
  }

  /** And `.` refuses a newline: a path with any other one is not matched by `**`, which denotes every path. */
  lemma InnerNewlineIsRefused(s: string, n: nat)
    requires n + 1 < |s| && s[n] == '\n'
    ensures !CompiledMatch("**", s) && Denotes("**", s)
  {
    var p := "**";
    TranslationCompiles(p);
    assert p[2..] == "" && PieceWidth(p) == 2;
    assert BodyRegex(p) == Cat(Star(Any), BodyRegex(""));
    forall j: nat | j <= |s| ensures !Matches(Cat(Begin, BodyRegex(p)), s, 0, j) {
      BeginMeaning(BodyRegex(p), s, j);
      AnyStopsAtANewline(s, n, j);
    }
    EveryTextIsAny(s);
  }

  /** So the two meanings agree on a path, for every pattern, exactly when it has no newline. */
  lemma TranslationIsExact(s: string)
    ensures '\n' !in s <==> forall p :: CompiledMatch(p, s) <==> Denotes(p, s)
  {
    if '\n' !in s {
      forall p ensures CompiledMatch(p, s) <==> Denotes(p, s) { GlobTranslation(p, s); }
    } else {
      var n := FirstIndex('\n', s);
      if n + 1 < |s| {
        InnerNewlineIsRefused(s, n);
      } else {
        assert s == s[..n] + "\n";
        FinalNewlineIsOverlooked(s[..n]);
      }
    }
  }

  // ---------------------------------------------------------------- separators

  /** A pattern without `**` fixes how deep the paths it matches are. */
  lemma {:induction false} DepthIsFixed(p: string, s: string)
    requires !Contains(p, "**") && Denotes(p, s)
    ensures Count('/', s) == Count('/', p)
    decreases |p|
  {
    if p != "" {
      assert !DoubleStarAhead(p) by { if DoubleStarAhead(p) { assert StartsWith(p[0..], "**"); } }
      assert !DirectoriesAhead(p);
      assert !Contains(p[1..], "**") by { ContainsInSuffix(p, 1, "**"); }
      assert p == [p[0]] + p[1..];
      CountConcat('/', [p[0]], p[1..]);
      var k := 1;
      if p[0] == '*' {
        k :| 0 <= k <= |s| && '/' !in s[..k] && Denotes(p[1..], s[k..]);
      }
      DepthIsFixed(p[1..], s[k..]);
      assert s == s[..k] + s[k..];
      CountConcat('/', s[..k], s[k..]);
      if p[0] == '*' || p[0] == '?' {
        CountAbsent('/', s[..k]);
      } else {
        assert s[..1] == [p[0]];
      }
    }
  }

  /** So such a pattern, compiled, matches only paths as deep as itself. */
  lemma MatchDepthIsFixed(p: string, s: string)
    requires !Contains(p, "**") && '\n' !in s && CompiledMatch(p, s)
    ensures Count('/', s) == Count('/', p)
  {
    GlobTranslation(p, s);
    DepthIsFixed(p, s);
  }

  // ---------------------------------------------------------------- matching a list of patterns

  function Replaced(s: string): (r: string)
    ensures |r| == |s|
    ensures forall i | 0 <= i < |s| :: r[i] == if s[i] == '\\' then '/' else s[i]
  {
    seq(|s|, i requires 0 <= i < |s| => if s[i] == '\\' then '/' else s[i])
  }

  function Normalise(path: string): string {
    var r := Replaced(path);
    if StartsWith(r, "./") then r[2..] else r
  }

  /** Paths as git writes them: no backslash, no newline, no leading separator or dot segment. */
  predicate GitStyle(path: string) {
    '\\' !in path && '\n' !in path && !StartsWith(path, "./") && !StartsWith(path, "/")
  }

  lemma NormaliseKeepsGitStyle(path: string)
    requires GitStyle(path)
    ensures Normalise(path) == path
  {
    assert Replaced(path) == path;
  }

  /** A backslash counts as a separator, and one leading `./` is taken off, but no other leading dot. */
  lemma NormaliseMeaning(path: string)
    ensures var r := Normalise(path);
            var start := |path| - |r|;
            && start == (if |path| >= 2 && path[0] == '.' && path[1] in {'/', '\\'} then 2 else 0)
            && forall i | 0 <= i < |r| :: r[i] == if path[start + i] == '\\' then '/' else path[start + i]
  {
    var replaced := Replaced(path);
    assert StartsWith(replaced, "./") <==> |replaced| >= 2 && replaced[0] == '.' && replaced[1] == '/' by {
      if |replaced| >= 2 { assert replaced[..2] == [replaced[0], replaced[1]]; }
    }
  }

  /** `matches_any`: the first pattern that matches, or `None`. */
  function FirstMatch(patterns: seq<string>, path: string): (r: Option<string>)
    ensures r.Some? ==> r.value in patterns && CompiledMatch(r.value, Normalise(path))
    ensures r.None? <==> forall p | p in patterns :: !CompiledMatch(p, Normalise(path))
  {
    if patterns == [] then None
    else if CompiledMatch(patterns[0], Normalise(path)) then Some(patterns[0])
    else
      assert forall p | p in patterns :: p == patterns[0] || p in patterns[1..];
      FirstMatch(patterns[1..], path)
  }

  /** The pattern named matches, and none before it does. */
  lemma {:induction false} FirstMatchIsFirst(patterns: seq<string>, path: string) returns (i: nat)
    requires FirstMatch(patterns, path).Some?
    ensures i < |patterns| && FirstMatch(patterns, path) == Some(patterns[i])
    ensures CompiledMatch(patterns[i], Normalise(path))
    ensures forall j | 0 <= j < i :: !CompiledMatch(patterns[j], Normalise(path))
  {
    i := 0;
    if !CompiledMatch(patterns[0], Normalise(path)) {
      var k := FirstMatchIsFirst(patterns[1..], path);
      i := k + 1;
    }
  }

  /** The scan of `matches_any`, with its early return. */
  method MatchesAny(patterns: seq<string>, path: string) returns (r: Option<string>)
    ensures r == FirstMatch(patterns, path)
  {
    var candidate := Normalise(path);
    var i := 0;
    while i < |patterns|
      invariant 0 <= i <= |patterns|
      invariant FirstMatch(patterns[i..], path) == FirstMatch(patterns, path)
    {
      if CompiledMatch(patterns[i], candidate) { return Some(patterns[i]); }
      assert patterns[i..][1..] == patterns[i + 1..];
      i := i + 1;
    }
    return None;
  }

  /** On paths as git writes them, `matches_any` finds something exactly when some glob denotes the path. */
  lemma FirstMatchMeaning(patterns: seq<string>, path: string)
    requires GitStyle(path)
    ensures FirstMatch(patterns, path).Some? <==> exists p | p in patterns :: Denotes(p, path)
    ensures FirstMatch(patterns, path).Some? ==> Denotes(FirstMatch(patterns, path).value, path)
  {
    NormaliseKeepsGitStyle(path);
    forall p | p in patterns ensures CompiledMatch(p, path) <==> Denotes(p, path) {
      GlobTranslation(p, path);
    }
  }
}
