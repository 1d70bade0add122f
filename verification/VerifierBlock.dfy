/**
 Arming and disarming verifiers in a stored `kuwarden.yaml` (`engine/api/main.py`): the `verification:`
 block of the text is replaced, and everything else, comments included, is left alone.
 */
module VerifierBlock {
  import opened Options

  // ---------------------------------------------------------------- lines, as `str.splitlines` has them

  predicate IsBreak(c: char) {
    var n := c as int;
    10 <= n <= 13 || 28 <= n <= 30 || n == 133 || n == 8232 || n == 8233
  }

  predicate IsSpace(c: char) {
    var n := c as int;
    || IsBreak(c) || n == 9 || 31 <= n <= 32 || n == 160 || n == 5760 || 8192 <= n <= 8202
    || n == 8239 || n == 8287 || n == 12288
  }

  predicate OneLine(s: string) {
    forall i | 0 <= i < |s| :: !IsBreak(s[i])
  }

  function LineEnd(s: string): (n: nat)
    ensures n <= |s| && OneLine(s[..n]) && (n < |s| ==> IsBreak(s[n]))
  {
    if s == "" || IsBreak(s[0]) then 0
    else
      var n := 1 + LineEnd(s[1..]);
      assert s[..n] == [s[0]] + s[1..][..n - 1];
      n
  }

  /** Where the line after the first one starts; a carriage return and a newline end a line together. */
  function NextLine(s: string): (n: nat)
    requires s != ""
    ensures LineEnd(s) <= n <= |s| && n > 0
  {
    var n := LineEnd(s);
    if n == |s| then n else if s[n] == '\r' && n + 1 < |s| && s[n + 1] == '\n' then n + 2 else n + 1
  }

  function SplitLines(s: string): seq<string> {
    if s == "" then [] else [s[..LineEnd(s)]] + SplitLines(s[NextLine(s)..])
  }

  lemma {:induction false} LinesAreSingle(s: string)
    ensures forall l | l in SplitLines(s) :: OneLine(l)
    decreases |s|
  {
    if s != "" { LinesAreSingle(s[NextLine(s)..]); }
  }

  /** Every line followed by a newline: `"\n".join(lines) + "\n"` of some lines. */
  function Lines(lines: seq<string>): string {
    if lines == [] then "" else lines[0] + "\n" + Lines(lines[1..])
  }

  lemma LineEndAt(s: string, n: nat)
    requires n <= |s| && OneLine(s[..n]) && (n < |s| ==> IsBreak(s[n]))
    ensures LineEnd(s) == n
  {
    var upTo, found := s[..n], s[..LineEnd(s)];
    assert forall i | 0 <= i < n :: s[i] == upTo[i];
    assert forall i | 0 <= i < LineEnd(s) :: s[i] == found[i];
  }

  lemma {:induction false} SplitOfLines(lines: seq<string>)
    requires forall l | l in lines :: OneLine(l)
    ensures SplitLines(Lines(lines)) == lines
  {
    if lines != [] {
      var s := Lines(lines);
      assert lines[0] in lines && s[..|lines[0]|] == lines[0];
      LineEndAt(s, |lines[0]|);
      assert s[|lines[0]|] == '\n' && s[NextLine(s)..] == Lines(lines[1..]);
      SplitOfLines(lines[1..]);
    }
  }

  lemma FirstLineStays(a: string, x: string)
    requires a != "" && a[|a| - 1] == '\n'
    ensures LineEnd(a) < |a| && LineEnd(a + x) == LineEnd(a) && NextLine(a + x) == NextLine(a)
    ensures (a + x)[..LineEnd(a)] == a[..LineEnd(a)] && (a + x)[NextLine(a)..] == a[NextLine(a)..] + x
  {
    assert a[..|a|] == a;
    assert (a + x)[..LineEnd(a)] == a[..LineEnd(a)];
    LineEndAt(a + x, LineEnd(a));
  }

  /** Taking the first line off a text, with and without more text after it. */
  lemma TakeLine(a: string, x: string) returns (first: string, rest: string)
    requires a != "" && a[|a| - 1] == '\n'
    ensures |rest| < |a| && (rest != "" ==> rest[|rest| - 1] == '\n')
    ensures SplitLines(a) == [first] + SplitLines(rest)
    ensures SplitLines(a + x) == [first] + SplitLines(rest + x)
  {
    FirstLineStays(a, x);
    first, rest := a[..LineEnd(a)], a[NextLine(a)..];
  }

  lemma Glue(first: string, tail: seq<string>, more: seq<string>)
    ensures [first] + (tail + more) == ([first] + tail) + more
  {
  }

  /** After a newline, lines start afresh. */
  lemma {:induction false} SplitAfterNewline(a: string, x: string)
    requires a != "" && a[|a| - 1] == '\n'
    ensures SplitLines(a + x) == SplitLines(a) + SplitLines(x)
    decreases |a|
  {
    var first, rest := TakeLine(a, x);
    Glue(first, SplitLines(rest), SplitLines(x));
    if rest == "" {
      assert rest + x == x;
    } else {
      SplitAfterNewline(rest, x);
    }
  }

  /** A final newline adds no line, but perhaps an empty one. */
  lemma {:induction false} FinalNewline(a: string)
    ensures forall l | l in SplitLines(a + "\n") :: l in SplitLines(a) || l == ""
    decreases |a|
  {
    var s, n := a + "\n", LineEnd(a);
    assert s[..n] == a[..n];
    LineEndAt(s, n);
    if a != "" && NextLine(s) <= |a| && n < |a| {
      assert s[NextLine(s)..] == a[NextLine(a)..] + "\n";
      FinalNewline(a[NextLine(a)..]);
    } else {
      assert s[NextLine(s)..] == "";
    }
  }

  /** No break other than a newline. */
  predicate NewlinesOnly(s: string) {
    forall i | 0 <= i < |s| :: IsBreak(s[i]) ==> s[i] == '\n'
  }

  lemma {:induction false} LinesHaveNewlinesOnly(lines: seq<string>)
    requires forall l | l in lines :: OneLine(l)
    ensures NewlinesOnly(Lines(lines))
  {
    if lines != [] {
      LinesHaveNewlinesOnly(lines[1..]);
      assert lines[0] in lines;
    }
  }

  /** Splitting and joining gives back a text ending in a newline exactly when it has no other breaks. */
  lemma {:induction false} LinesOfSplit(a: string)
    requires a != "" ==> a[|a| - 1] == '\n'
    ensures Lines(SplitLines(a)) == a <==> NewlinesOnly(a)
    decreases |a|
  {
    LinesAreSingle(a);
    LinesHaveNewlinesOnly(SplitLines(a));
    if NewlinesOnly(a) { LinesRebuild(a); }
  }

  lemma TakePlainLine(a: string) returns (first: string, rest: string)
    requires a != "" && a[|a| - 1] == '\n' && NewlinesOnly(a)
    ensures |rest| < |a| && (rest != "" ==> rest[|rest| - 1] == '\n') && NewlinesOnly(rest)
    ensures SplitLines(a) == [first] + SplitLines(rest) && a == first + "\n" + rest
  {
    PlainLineEnds(a);
    first, rest := a[..LineEnd(a)], a[NextLine(a)..];
  }

  lemma PlainLineEnds(a: string)
    requires a != "" && a[|a| - 1] == '\n' && NewlinesOnly(a)
    ensures LineEnd(a) < |a| && a[LineEnd(a)] == '\n' && NextLine(a) == LineEnd(a) + 1
  {
    assert a[..|a|] == a;
  }

  lemma {:induction false} LinesRebuild(a: string)
    requires NewlinesOnly(a) && (a != "" ==> a[|a| - 1] == '\n')
    ensures Lines(SplitLines(a)) == a
    decreases |a|
  {
    if a != "" {
      var first, rest := TakePlainLine(a);
      LinesRebuild(rest);
      assert ([first] + SplitLines(rest))[1..] == SplitLines(rest);
    }
  }

  // ---------------------------------------------------------------- the block

  const ALL_VERIFIERS: seq<string> := ["correctness", "security", "test_evidence", "regression_risk"]

  function Entry(name: string, blocking: bool): string {
    "    " + name + ": " + if blocking then "true" else "false"
  }

  function Entries(names: seq<string>, wanted: set<string>): seq<string> {
    if names == [] then []
    else Entries(names[..|names| - 1], wanted) + [Entry(names[|names| - 1], names[|names| - 1] in wanted)]
  }

  /** The block, with the lines of `notes` that say what it is for. */
  function Block(notes: seq<string>, wanted: set<string>): seq<string> {
    ["verification:"] + notes + ["  verifiers:"] + Entries(ALL_VERIFIERS, wanted)
  }

  /** Notes are indented comment lines. */
  predicate AreNotes(notes: seq<string>) {
    IndentedLines(notes) && forall i | 0 <= i < |notes| :: IsComment(notes[i])
  }

  predicate IndentedLines(lines: seq<string>) {
    forall i | 0 <= i < |lines| :: OneLine(lines[i]) && lines[i] != "" && lines[i][0] == ' '
  }

  /** `line.rstrip()`. */
  function Trimmed(line: string): string {
    if line != "" && IsSpace(line[|line| - 1]) then Trimmed(line[..|line| - 1]) else line
  }

  predicate IsKey(line: string) {
    Trimmed(line) == "verification:"
  }

  /** Blank, or indented under the key. */
  predicate Belongs(line: string) {
    (forall c | c in line :: IsSpace(c)) || line[0] == ' ' || line[0] == '\t'
  }

  /** `line.lstrip().startswith("#")`. */
  predicate IsComment(line: string) {
    line != "" && (line[0] == '#' || (IsSpace(line[0]) && IsComment(line[1..])))
  }

  // ---------------------------------------------------------------- the rewrite

  /** The first line of a kind, the end of a run of lines of a kind, and the start of one. */
  function First<T>(lines: seq<T>, kind: T -> bool): (n: nat)
    ensures n <= |lines| && (n < |lines| ==> kind(lines[n])) && forall i | 0 <= i < n :: !kind(lines[i])
  {
    if lines == [] || kind(lines[0]) then 0
    else
      var n := First(lines[1..], kind);
      assert forall i | 0 < i < 1 + n :: lines[i] == lines[1..][i - 1];
      1 + n
  }

  function RunEnd<T>(lines: seq<T>, i: nat, kind: T -> bool): (n: nat)
    requires i <= |lines|
    ensures i <= n <= |lines|
    ensures (forall j | i <= j < n :: kind(lines[j])) && (n < |lines| ==> !kind(lines[n]))
    decreases |lines| - i
  {
    if i < |lines| && kind(lines[i]) then RunEnd(lines, i + 1, kind) else i
  }

  function RunStart<T>(lines: seq<T>, i: nat, kind: T -> bool): (n: nat)
    requires i <= |lines|
    ensures n <= i
    ensures (forall j | n <= j < i :: kind(lines[j])) && (n > 0 ==> !kind(lines[n - 1]))
  {
    if i > 0 && kind(lines[i - 1]) then RunStart(lines, i - 1, kind) else i
  }

  /** `text.rstrip("\n")`. */
  function WithoutFinalNewlines(s: string): string {
    if s != "" && s[|s| - 1] == '\n' then WithoutFinalNewlines(s[..|s| - 1]) else s
  }

  /** What tells the lines of a file apart: keys, what belongs to a key, and comments. */
  datatype Kinds<!T> = Kinds(key: T -> bool, belongs: T -> bool, comment: T -> bool)

  const YAML: Kinds<string> := Kinds(IsKey, Belongs, IsComment)

  /** The lines kept before the block, and those kept after it. */
  function Before<T>(lines: seq<T>, kinds: Kinds<T>): seq<T> {
    lines[..RunStart(lines, First(lines, kinds.key), kinds.comment)]
  }

  function After<T>(lines: seq<T>, kinds: Kinds<T>): seq<T>
    requires First(lines, kinds.key) < |lines|
  {
    lines[RunEnd(lines, First(lines, kinds.key) + 1, kinds.belongs)..]
  }

  predicate HasBlock(text: string) {
    First(SplitLines(text), IsKey) < |SplitLines(text)|
  }

  /** The text with its block, or none, replaced by the lines of `block`. */
  function Replaced(text: string, block: seq<string>): string {
    var lines := SplitLines(text);
    if HasBlock(text) then Lines(Before(lines, YAML) + block + After(lines, YAML))
    else WithoutFinalNewlines(text) + "\n\n" + Lines(block)
  }

  function Rewritten(text: string, notes: seq<string>, wanted: set<string>): string {
    Replaced(text, Block(notes, wanted))
  }

  method WithVerifiers(text: string, notes: seq<string>, wanted: set<string>) returns (r: string)
    ensures r == Rewritten(text, notes, wanted)
  {
    r := Replace(text, Block(notes, wanted));
  }

  method Replace(text: string, block: seq<string>) returns (r: string)
    ensures r == Replaced(text, block)
  {
    var lines := SplitLines(text);
    var start := First(lines, IsKey);
    if start == |lines| {
      return WithoutFinalNewlines(text) + "\n\n" + Lines(block);
    }
    var head, end := Extent(lines, start);
    assert lines[..head] == Before(lines, YAML) && lines[end..] == After(lines, YAML);
    r := Lines(lines[..head] + block + lines[end..]);
  }

  /** The two loops: down over what belongs to the key, and up over the comment lines above it. */
  method Extent(lines: seq<string>, start: nat) returns (head: nat, end: nat)
    requires start < |lines|
    ensures head == RunStart(lines, start, IsComment) && end == RunEnd(lines, start + 1, Belongs)
  {
    end := start + 1;
    while end < |lines| && Belongs(lines[end])
      invariant start < end <= |lines|
      invariant RunEnd(lines, end, Belongs) == RunEnd(lines, start + 1, Belongs)
    {
      end := end + 1;
    }
    head := start;
    while head > 0 && IsComment(lines[head - 1])
      invariant head <= start && RunStart(lines, head, IsComment) == RunStart(lines, start, IsComment)
    {
      head := head - 1;
    }
  }

  // ---------------------------------------------------------------- what a rewrite leaves

  /** A replacement block: a key line, then lines that belong to it; none of those is a key line. */
  predicate IsBlock<T>(block: seq<T>, kinds: Kinds<T>) {
    && block != [] && kinds.key(block[0])
    && forall i | 0 < i < |block| :: kinds.belongs(block[i]) && !kinds.key(block[i])
  }

  /** Where a block may stand: no key line before it, no comment right above it, nothing after it that belongs to it. */
  predicate Fits<T>(before: seq<T>, after: seq<T>, kinds: Kinds<T>) {
    && (forall i | 0 <= i < |before| :: !kinds.key(before[i]))
    && (before != [] ==> !kinds.comment(before[|before| - 1]))
    && (after != [] ==> !kinds.belongs(after[0]))
  }

  lemma FirstIs<T>(lines: seq<T>, n: nat, kind: T -> bool)
    requires n < |lines| && kind(lines[n]) && forall i | 0 <= i < n :: !kind(lines[i])
    ensures First(lines, kind) == n
  {
  }

  lemma RunEndIs<T>(lines: seq<T>, i: nat, n: nat, kind: T -> bool)
    requires i <= n <= |lines| && (forall j | i <= j < n :: kind(lines[j])) && (n < |lines| ==> !kind(lines[n]))
    ensures RunEnd(lines, i, kind) == n
  {
  }

  /** A block that fits is found again, whole. */
  lemma BlockIsFound<T>(before: seq<T>, block: seq<T>, after: seq<T>, kinds: Kinds<T>)
    requires Fits(before, after, kinds) && IsBlock(block, kinds)
    ensures var lines := before + block + after;
            && First(lines, kinds.key) == |before|
            && Before(lines, kinds) == before && After(lines, kinds) == after
  {
    var lines, n := before + block + after, |before|;
    assert lines[n] == block[0];
    FirstIs(lines, n, kinds.key);
    assert forall j | n < j < n + |block| :: lines[j] == block[j - n];
    RunEndIs(lines, n + 1, n + |block|, kinds.belongs);
  }

  /** And what a rewrite keeps is a place where a block fits. */
  lemma KeptFits<T>(lines: seq<T>, kinds: Kinds<T>)
    requires First(lines, kinds.key) < |lines|
    ensures Fits(Before(lines, kinds), After(lines, kinds), kinds)
  {
  }

  predicate AllOneLine(lines: seq<string>) {
    forall i | 0 <= i < |lines| :: OneLine(lines[i])
  }

  /** The lines a rewrite keeps, above and below the block. */
  function KeptBefore(text: string): seq<string> {
    if HasBlock(text) then Before(SplitLines(text), YAML) else SplitLines(WithoutFinalNewlines(text) + "\n\n")
  }

  function KeptAfter(text: string): seq<string> {
    if HasBlock(text) then After(SplitLines(text), YAML) else []
  }

  lemma {:induction false} NewlinesGone(s: string)
    ensures var t := WithoutFinalNewlines(s);
            t == s || (|t| < |s| && s[..|t| + 1] == t + "\n")
    ensures NewlinesOnly(WithoutFinalNewlines(s)) <==> NewlinesOnly(s)
  {
    if s != "" && s[|s| - 1] == '\n' {
      NewlinesGone(s[..|s| - 1]);
      assert s == s[..|s| - 1] + "\n";
    }
  }

  /** Without a block the text's own lines are kept, then an empty one; none of them is a key. */
  lemma AppendedFits(text: string)
    requires !HasBlock(text)
    ensures Fits(KeptBefore(text), KeptAfter(text), YAML)
  {
    var short := WithoutFinalNewlines(text);
    var ended := short + "\n";
    NewlinesGone(text);
    assert short + "\n\n" == ended + "\n";
    SplitAfterNewline(ended, "\n");
    OnlyNewline();
    if short == text {
      FinalNewline(text);
    } else {
      assert text == ended + text[|ended|..];
      SplitAfterNewline(ended, text[|ended|..]);
    }
    var lines := SplitLines(text);
    forall l | l in KeptBefore(text) ensures !IsKey(l) {
      assert l in lines || l == "";
    }
  }

  lemma OnlyNewline()
    ensures SplitLines("\n") == [""]
  {
  }

  lemma KeptIsSingle(text: string)
    ensures AllOneLine(KeptBefore(text)) && AllOneLine(KeptAfter(text)) && Fits(KeptBefore(text), KeptAfter(text), YAML)
  {
    LinesAreSingle(text);
    LinesAreSingle(WithoutFinalNewlines(text) + "\n\n");
    if HasBlock(text) { KeptFits(SplitLines(text), YAML); } else { AppendedFits(text); }
  }

  lemma {:induction false} LinesConcat(a: seq<string>, b: seq<string>)
    ensures Lines(a + b) == Lines(a) + Lines(b)
  {
    if a == [] {
      assert a + b == b;
    } else {
      assert (a + b)[1..] == a[1..] + b;
      LinesConcat(a[1..], b);
    }
  }

  /** The rewritten text, line by line: what is kept above, the new block, what is kept below. */
  lemma ReplacedLines(text: string, block: seq<string>)
    requires AllOneLine(block) && block != []
    ensures SplitLines(Replaced(text, block)) == KeptBefore(text) + block + KeptAfter(text)
  {
    KeptIsSingle(text);
    if HasBlock(text) {
      SplitOfLines(KeptBefore(text) + block + KeptAfter(text));
    } else {
      SplitAfterNewline(WithoutFinalNewlines(text) + "\n\n", Lines(block));
      SplitOfLines(block);
    }
  }

  /**
   The last write wins: replacing a block twice is replacing it once, with the second, exactly when the
   text had a block or breaks its lines with newlines only. A first write leaves other breaks alone; the
   second turns them into newlines.
   */
  lemma LastWriteWins(text: string, first: seq<string>, second: seq<string>)
    requires AllOneLine(first) && IsBlock(first, YAML) && AllOneLine(second) && IsBlock(second, YAML)
    ensures Replaced(Replaced(text, first), second) == Replaced(text, second) <==> HasBlock(text) || NewlinesOnly(text)
  {
    var before, after := KeptBefore(text), KeptAfter(text);
    ReplacedLines(text, first);
    KeptIsSingle(text);
    BlockIsFound(before, first, after, YAML);
    assert Replaced(Replaced(text, first), second) == Lines(before + second + after);
    if !HasBlock(text) {
      var start := WithoutFinalNewlines(text) + "\n\n";
      assert before + second + after == before + second;
      LinesConcat(before, second);
      SameStart(Lines(before), start, Lines(second));
      LinesOfSplit(start);
      NewlinesGone(text);
      MoreNewlines(WithoutFinalNewlines(text));
    }
  }

  lemma SameStart(a: string, b: string, x: string)
    ensures a + x == b + x <==> a == b
  {
    if a + x == b + x {
      assert (a + x)[..|a|] == a && (b + x)[..|b|] == b;
    }
  }

  lemma MoreNewlines(s: string)
    ensures NewlinesOnly(s + "\n\n") <==> NewlinesOnly(s)
  {
    var t := s + "\n\n";
    assert forall i | 0 <= i < |s| :: t[i] == s[i];
  }

  // ---------------------------------------------------------------- the verifiers' block is one

  lemma {:induction false} TrimmedIsAPrefix(line: string)
    ensures |Trimmed(line)| <= |line| && Trimmed(line) == line[..|Trimmed(line)|]
  {
    if line != "" && IsSpace(line[|line| - 1]) { TrimmedIsAPrefix(line[..|line| - 1]); }
  }

  /** The key may be followed by spaces only, and nothing may stand before it. */
  lemma IsKeyMeaning(line: string)
    ensures IsKey(line) <==>
            |line| >= 13 && line[..13] == "verification:" && forall i | 13 <= i < |line| :: IsSpace(line[i])
  {
    TrimmedDropsSpaces(line);
    if |line| >= 13 && line[..13] == "verification:" && forall i | 13 <= i < |line| :: IsSpace(line[i]) {
      assert line[12] == line[..13][12] == ':';
      TrimmedIs(line, 13);
    }
  }

  lemma {:induction false} TrimmedIs(line: string, n: nat)
    requires 0 < n <= |line| && !IsSpace(line[n - 1]) && forall i | n <= i < |line| :: IsSpace(line[i])
    ensures Trimmed(line) == line[..n]
  {
    if n < |line| {
      TrimmedIs(line[..|line| - 1], n);
      assert line[..|line| - 1][..n] == line[..n];
    } else {
      assert line[..n] == line;
    }
  }

  lemma {:induction false} TrimmedDropsSpaces(line: string)
    ensures var t := Trimmed(line);
            && |t| <= |line| && t == line[..|t|]
            && (forall i | |t| <= i < |line| :: IsSpace(line[i]))
            && (t != "" ==> !IsSpace(t[|t| - 1]))
  {
    if line != "" && IsSpace(line[|line| - 1]) { TrimmedDropsSpaces(line[..|line| - 1]); }
  }

  /** A comment is a number sign with nothing but spaces before it. */
  lemma {:induction false} IsCommentMeaning(line: string)
    ensures IsComment(line) <==>
            exists i | 0 <= i < |line| :: line[i] == '#' && forall j | 0 <= j < i :: IsSpace(line[j])
  {
    if line != "" && line[0] != '#' {
      var rest := line[1..];
      IsCommentMeaning(rest);
      if i :| 0 <= i < |rest| && rest[i] == '#' && forall j | 0 <= j < i :: IsSpace(rest[j]) {
        if IsSpace(line[0]) {
          assert line[i + 1] == '#' && forall j | 0 <= j < i + 1 :: j > 0 ==> line[j] == rest[j - 1];
        }
      }
      if i :| 0 <= i < |line| && line[i] == '#' && forall j | 0 <= j < i :: IsSpace(line[j]) {
        assert rest[i - 1] == '#' && forall j | 0 <= j < i - 1 :: rest[j] == line[j + 1];
      }
    }
  }

  /** A text without a block is kept up to its final newlines; then come an empty line and the block. */
  lemma AppendedText(text: string, block: seq<string>) returns (n: nat)
    requires !HasBlock(text)
    ensures n <= |text| && (forall i | n <= i < |text| :: text[i] == '\n') && (n > 0 ==> text[n - 1] != '\n')
    ensures Replaced(text, block) == text[..n] + "\n\n" + Lines(block)
  {
    n := FinalNewlinesStart(text);
  }

  lemma {:induction false} FinalNewlinesStart(s: string) returns (n: nat)
    ensures n <= |s| && WithoutFinalNewlines(s) == s[..n]
    ensures (forall i | n <= i < |s| :: s[i] == '\n') && (n > 0 ==> s[n - 1] != '\n')
  {
    n := |s|;
    if s != "" && s[|s| - 1] == '\n' {
      n := FinalNewlinesStart(s[..|s| - 1]);
      assert s[..|s| - 1][..n] == s[..n];
    }
  }

  /** A text with a block keeps every line but the block's own and the comments right above it. */
  lemma KeptLines(text: string, block: seq<string>) returns (head: nat, key: nat, end: nat)
    requires HasBlock(text) && AllOneLine(block) && block != []
    ensures var lines := SplitLines(text);
            && head <= key < end <= |lines|
            && SplitLines(Replaced(text, block)) == lines[..head] + block + lines[end..]
            && IsKey(lines[key]) && (forall i | 0 <= i < key :: !IsKey(lines[i]))
            && (forall i | head <= i < key :: IsComment(lines[i])) && (head > 0 ==> !IsComment(lines[head - 1]))
            && (forall i | key < i < end :: Belongs(lines[i])) && (end < |lines| ==> !Belongs(lines[end]))
  {
    ReplacedLines(text, block);
    head, key, end := KeptRanges(SplitLines(text));
  }

  lemma KeptRanges(lines: seq<string>) returns (head: nat, key: nat, end: nat)
    requires First(lines, IsKey) < |lines|
    ensures head <= key < end <= |lines| && Before(lines, YAML) == lines[..head] && After(lines, YAML) == lines[end..]
    ensures IsKey(lines[key]) && (forall i | 0 <= i < key :: !IsKey(lines[i]))
    ensures (forall i | head <= i < key :: IsComment(lines[i])) && (head > 0 ==> !IsComment(lines[head - 1]))
    ensures (forall i | key < i < end :: Belongs(lines[i])) && (end < |lines| ==> !Belongs(lines[end]))
  {
    key := First(lines, IsKey);
    head, end := RunStart(lines, key, IsComment), RunEnd(lines, key + 1, Belongs);
  }

  /** The block as it is written. */
  lemma BlockText(notes: seq<string>, wanted: set<string>)
    ensures Block(notes, wanted) ==
            ["verification:"] + notes + [
              "  verifiers:",
              "    " + "correctness" + ": " + (if "correctness" in wanted then "true" else "false"),
              "    " + "security" + ": " + (if "security" in wanted then "true" else "false"),
              "    " + "test_evidence" + ": " + (if "test_evidence" in wanted then "true" else "false"),
              "    " + "regression_risk" + ": " + (if "regression_risk" in wanted then "true" else "false")
            ]
  {
    var names := ALL_VERIFIERS;
    assert names == ["correctness", "security", "test_evidence", "regression_risk"];
    FourEntries(names, wanted);
  }

  lemma FourEntries(names: seq<string>, wanted: set<string>)
    requires |names| == 4
    ensures Entries(names, wanted) == [Entry(names[0], names[0] in wanted), Entry(names[1], names[1] in wanted),
                                       Entry(names[2], names[2] in wanted), Entry(names[3], names[3] in wanted)]
  {
    assert names[..3][..2] == names[..2] && names[..2][..1] == names[..1] && names[..1][..0] == [];
    assert Entries(names[..1], wanted) == [Entry(names[0], names[0] in wanted)];
    assert Entries(names[..2], wanted) == Entries(names[..1], wanted) + [Entry(names[1], names[1] in wanted)];
    assert Entries(names[..3], wanted) == Entries(names[..2], wanted) + [Entry(names[2], names[2] in wanted)];
  }

  lemma IndentedLine(line: string)
    requires line != "" && line[0] == ' '
    ensures Belongs(line) && !IsKey(line)
  {
    TrimmedIsAPrefix(line);
    assert "verification:"[0] == 'v';
  }

  lemma {:induction false} EntriesAreLines(names: seq<string>, wanted: set<string>)
    requires AllOneLine(names)
    ensures |Entries(names, wanted)| == |names| && IndentedLines(Entries(names, wanted))
  {
    if names != [] { EntriesAreLines(names[..|names| - 1], wanted); }
  }

  lemma NamesAreLines()
    ensures AllOneLine(ALL_VERIFIERS)
  {
    var names := ALL_VERIFIERS;
    assert OneLine(names[0]);
    assert OneLine(names[1]);
    assert OneLine(names[2]);
    assert OneLine(names[3]);
  }

  lemma BlockIsABlock(notes: seq<string>, wanted: set<string>)
    requires AreNotes(notes)
    ensures AllOneLine(Block(notes, wanted)) && IsBlock(Block(notes, wanted), YAML)
  {
    NamesAreLines();
    EntriesAreLines(ALL_VERIFIERS, wanted);
    var block := Block(notes, wanted);
    assert block[1..] == notes + ["  verifiers:"] + Entries(ALL_VERIFIERS, wanted);
    assert IndentedLines(block[1..]);
    forall i | 0 < i < |block| ensures OneLine(block[i]) && Belongs(block[i]) && !IsKey(block[i]) {
      assert block[i] == block[1..][i - 1];
      IndentedLine(block[i]);
    }
  }
}
