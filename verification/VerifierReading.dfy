/**
 What the configuration parser makes of a rewritten text (`engine/config.py`), and when the choice of
 blocking verifiers reads back as it was written.

 Only the layout of block mappings is modelled: lines are grouped by indentation, blank and comment lines
 mean nothing wherever they stand, and of two equal keys the later one wins. How a single line spells its
 key, which scalars count as true and what a value means that starts on its key's own line are left to an
 arbitrary `Reader`, of which only the lines that the rewrite itself writes are known.
 */
module VerifierReading {
  import opened Options
  import opened VerifierBlock

  // ---------------------------------------------------------------- lines as the parser sees them

  /** A line with content: its indentation, the key it opens, if any, and what follows the key. */
  datatype Token = Token(raw: string, indent: nat, tabbed: bool, key: Option<string>, rest: string)

  datatype Reader = Reader(
    key: string -> Option<(string, string)>,
    truth: string -> Option<bool>,
    inline: (string, string, seq<Token>) -> Option<set<string>>,
    elsewhere: string -> bool
  )

  const KEY := "verification"
  const INNER := "verifiers"

  /** The reader knows the plain lines that the rewrite writes. */
  predicate ReadsPlainLines(x: Reader) {
    && x.key("verification:") == Some((KEY, ""))
    && x.key("  verifiers:") == Some((INNER, ""))
    && (forall n | n in ALL_VERIFIERS :: ReadsEntry(x, n))
    && x.truth("true") == Some(true) && x.truth("false") == Some(false)
  }

  predicate ReadsEntry(x: Reader, n: string) {
    x.key(Entry(n, true)) == Some((n, "true")) && x.key(Entry(n, false)) == Some((n, "false"))
  }

  function Spaces(line: string): (n: nat)
    ensures n <= |line| && (forall i | 0 <= i < n :: line[i] == ' ') && (n < |line| ==> line[n] != ' ')
  {
    if line == "" || line[0] != ' ' then 0 else 1 + Spaces(line[1..])
  }

  predicate IsBlank(line: string) {
    forall i | 0 <= i < |line| :: IsSpace(line[i])
  }

  function TokenOf(x: Reader, line: string): Token {
    var n, k := Spaces(line), x.key(line);
    Token(line, n, n < |line| && line[n] == '\t',
          if k.Some? then Some(k.value.0) else None, if k.Some? then k.value.1 else "")
  }

  /** The lines with content. */
  function Tokens(x: Reader, lines: seq<string>): seq<Token> {
    if lines == [] then []
    else
      var front, line := Tokens(x, lines[..|lines| - 1]), lines[|lines| - 1];
      if IsBlank(line) || IsComment(line) then front else front + [TokenOf(x, line)]
  }

  lemma {:induction false} TokensConcat(x: Reader, a: seq<string>, b: seq<string>)
    ensures Tokens(x, a + b) == Tokens(x, a) + Tokens(x, b)
  {
    if b == [] {
      assert a + b == a;
    } else {
      assert (a + b)[..|a + b| - 1] == a + b[..|b| - 1];
      TokensConcat(x, a, b[..|b| - 1]);
    }
  }

  // ---------------------------------------------------------------- the last of two equal keys

  /** The last element of a kind, if any. */
  function Last<T>(ts: seq<T>, kind: T -> bool): (n: Option<nat>)
    ensures n.Some? ==> n.value < |ts|
  {
    if ts == [] then None
    else if kind(ts[|ts| - 1]) then Some(|ts| - 1)
    else Last(ts[..|ts| - 1], kind)
  }

  lemma {:induction false} LastMeans<T>(ts: seq<T>, kind: T -> bool)
    ensures var n := Last(ts, kind);
            && (n.Some? ==> kind(ts[n.value]))
            && forall i | 0 <= i < |ts| && kind(ts[i]) :: n.Some? && i <= n.value
  {
    if ts != [] && !kind(ts[|ts| - 1]) { LastMeans(ts[..|ts| - 1], kind); }
  }

  function Run<T>(ts: seq<T>, i: nat, kind: T -> bool): seq<T>
    requires i <= |ts|
  {
    ts[i..RunEnd(ts, i, kind)]
  }

  lemma {:induction false} LastShifts<T>(front: seq<T>, rest: seq<T>, kind: T -> bool)
    requires Last(rest, kind).Some?
    ensures Last(front + rest, kind) == Some(|front| + Last(rest, kind).value)
  {
    var ts := front + rest;
    assert ts[|ts| - 1] == rest[|rest| - 1];
    assert ts[..|ts| - 1] == front + rest[..|rest| - 1];
    if !kind(rest[|rest| - 1]) { LastShifts(front, rest[..|rest| - 1], kind); }
  }

  lemma {:induction false} RunEndShifts<T>(front: seq<T>, rest: seq<T>, i: nat, kind: T -> bool)
    requires i <= |rest|
    ensures RunEnd(front + rest, |front| + i, kind) == |front| + RunEnd(rest, i, kind)
    decreases |rest| - i
  {
    if i < |rest| && kind(rest[i]) { RunEndShifts(front, rest, i + 1, kind); }
  }

  lemma SliceShifts<T>(front: seq<T>, rest: seq<T>, i: nat, j: nat)
    requires i <= j <= |rest|
    ensures (front + rest)[|front| + i..|front| + j] == rest[i..j]
  {
  }

  lemma RunShifts<T>(front: seq<T>, rest: seq<T>, i: nat, m: nat, kind: T -> bool)
    requires i <= |rest| && m == |front| + i
    ensures Run(front + rest, m, kind) == Run(rest, i, kind)
  {
    RunEndShifts(front, rest, i, kind);
    SliceShifts(front, rest, i, RunEnd(rest, i, kind));
  }

  /** The value of a key: the rest of its line, and the lines that belong to it. */
  function LastValue(ts: seq<Token>, key: Token -> bool, belongs: Token -> bool): Option<(string, seq<Token>)> {
    var n := Last(ts, key);
    if n.None? then None else Some((ts[n.value].rest, Run(ts, n.value + 1, belongs)))
  }

  /** A later key decides, whatever stands before it. */
  lemma LaterKeyDecides(front: seq<Token>, rest: seq<Token>, key: Token -> bool, belongs: Token -> bool)
    requires Last(rest, key).Some?
    ensures LastValue(front + rest, key, belongs) == LastValue(rest, key, belongs)
  {
    var n := Last(rest, key).value;
    LastShifts(front, rest, key);
    ValueShifts(front, rest, n, |front| + n, belongs);
    SameValue(front + rest, |front| + n, rest, n, key, belongs);
  }

  lemma SameValue(ts: seq<Token>, m: nat, us: seq<Token>, n: nat, key: Token -> bool, belongs: Token -> bool)
    requires Last(ts, key) == Some(m) && Last(us, key) == Some(n)
    requires ts[m].rest == us[n].rest && Run(ts, m + 1, belongs) == Run(us, n + 1, belongs)
    ensures LastValue(ts, key, belongs) == LastValue(us, key, belongs)
  {
  }

  lemma ValueShifts(front: seq<Token>, rest: seq<Token>, n: nat, m: nat, belongs: Token -> bool)
    requires n < |rest| && m == |front| + n
    ensures (front + rest)[m].rest == rest[n].rest && Run(front + rest, m + 1, belongs) == Run(rest, n + 1, belongs)
  {
    RunShifts(front, rest, n + 1, m + 1, belongs);
  }

  lemma LastValueIs(ts: seq<Token>, n: nat, key: Token -> bool, belongs: Token -> bool, value: string,
                    lines: seq<Token>)
    requires Last(ts, key) == Some(n) && ts[n].rest == value && Run(ts, n + 1, belongs) == lines
    ensures LastValue(ts, key, belongs) == Some((value, lines))
  {
  }

  lemma LastIs<T>(ts: seq<T>, n: nat, kind: T -> bool)
    requires n < |ts| && kind(ts[n]) && forall i | n < i < |ts| :: !kind(ts[i])
    ensures Last(ts, kind) == Some(n)
  {
    LastMeans(ts, kind);
  }

  lemma FirstKeyDecides(top: Token, body: seq<Token>, rest: seq<Token>, key: Token -> bool, belongs: Token -> bool)
    requires key(top) && (forall i | 0 <= i < |body| :: !key(body[i]) && belongs(body[i]))
    requires (forall i | 0 <= i < |rest| :: !key(rest[i])) && (rest != [] ==> !belongs(rest[0]))
    ensures LastValue([top] + body + rest, key, belongs) == Some((top.rest, body))
  {
    var ts, n := [top] + body + rest, 1 + |body|;
    assert forall i | 0 < i < n :: ts[i] == body[i - 1];
    assert forall i | n <= i < |ts| :: ts[i] == rest[i - n];
    LastIs(ts, 0, key);
    RunEndIs(ts, 1, n, belongs);
    assert ts[1..n] == body;
    LastValueIs(ts, 0, key, belongs, top.rest, body);
  }

  // ---------------------------------------------------------------- the parser's answer

  function Everyone(): set<string> {
    set n | n in ALL_VERIFIERS
  }

  predicate IsTop(t: Token) {
    t.indent == 0 && !t.tabbed
  }

  predicate IsNested(t: Token) {
    !IsTop(t)
  }

  predicate IsTopKey(t: Token) {
    IsTop(t) && t.key == Some(KEY)
  }

  predicate IsWellIndented(t: Token, d: nat) {
    !t.tabbed && t.indent >= d
  }

  /** `None` is a text that the parser refuses. */
  function Reading(x: Reader, ts: seq<Token>): Option<set<string>> {
    match LastValue(ts, IsTopKey, IsNested)
    case None => Some(Everyone())
    case Some(v) => ReadVerification(x, v.0, v.1)
  }

  function ReadVerification(x: Reader, rest: string, nested: seq<Token>): Option<set<string>> {
    if rest != "" then x.inline(KEY, rest, nested)
    else if nested == [] then Some(Everyone())
    else ReadMapping(x, nested, nested[0].indent)
  }

  function InnerKeyAt(d: nat): Token -> bool {
    (t: Token) => t.indent == d && t.key == Some(INNER)
  }

  function DeeperThan(d: nat): Token -> bool {
    (t: Token) => t.indent > d
  }

  predicate FitsMapping(t: Token, d: nat) {
    IsWellIndented(t, d) && (t.indent == d ==> t.key.Some?)
  }

  /** The keys of a mapping stand at its indentation, what belongs to them further in. */
  function ReadMapping(x: Reader, nested: seq<Token>, d: nat): Option<set<string>> {
    if exists t | t in nested :: !FitsMapping(t, d) then None
    else
      match LastValue(nested, InnerKeyAt(d), DeeperThan(d))
      case None => Some(Everyone())
      case Some(v) =>
        if v.0 != "" then x.inline(INNER, v.0, v.1)
        else if v.1 == [] then Some(Everyone())
        else ReadEntries(x, v.1, v.1[0].indent)
  }

  predicate IsEntry(x: Reader, t: Token, d: nat) {
    && IsWellIndented(t, d) && t.indent == d
    && t.key.Some? && t.key.value in ALL_VERIFIERS && x.truth(t.rest).Some?
  }

  /** Only a known name with a plain value is taken; one that is not false leaves its verifier blocking. */
  function ReadEntries(x: Reader, ts: seq<Token>, d: nat): Option<set<string>> {
    if exists t | t in ts :: !IsEntry(x, t, d) then None
    else Some(set n | n in ALL_VERIFIERS && Declared(x, ts, n) != Some(false))
  }

  function Declared(x: Reader, ts: seq<Token>, name: string): Option<bool> {
    if ts == [] then None
    else if ts[|ts| - 1].key == Some(name) then x.truth(ts[|ts| - 1].rest)
    else Declared(x, ts[..|ts| - 1], name)
  }

  /** `parse(text).verification.blocking`, where the rest of the file may be refused for reasons of its own. */
  function Parse(x: Reader, text: string): Option<set<string>> {
    if x.elsewhere(text) then Reading(x, Tokens(x, SplitLines(text))) else None
  }

  /** Without the key every verifier blocks. */
  lemma AbsentMeansEveryone(x: Reader, ts: seq<Token>)
    requires forall i | 0 <= i < |ts| :: !(ts[i].indent == 0 && !ts[i].tabbed && ts[i].key == Some("verification"))
    ensures Reading(x, ts) == Some({"correctness", "security", "test_evidence", "regression_risk"})
  {
    LastMeans(ts, IsTopKey);
    assert forall i | 0 <= i < |ts| :: !IsTopKey(ts[i]);
    EveryoneIsFour();
  }

  lemma EveryoneIsFour()
    ensures Everyone() == {"correctness", "security", "test_evidence", "regression_risk"}
  {
    var names := ALL_VERIFIERS;
    assert names == ["correctness", "security", "test_evidence", "regression_risk"];
    assert names[0] in names && names[1] in names && names[2] in names && names[3] in names;
  }

  /** The last entry of a verifier decides whether it blocks. */
  lemma LastEntryDecides(x: Reader, ts: seq<Token>, d: nat, name: string, i: nat)
    requires ReadEntries(x, ts, d).Some? && name in ALL_VERIFIERS
    requires i < |ts| && ts[i].key == Some(name) && forall j | i < j < |ts| :: ts[j].key != Some(name)
    ensures x.truth(ts[i].rest).Some? && (name in ReadEntries(x, ts, d).value <==> x.truth(ts[i].rest).value)
  {
    assert ts[i] in ts;
    DeclaredByTheLast(x, ts, name, i);
  }

  lemma {:induction false} DeclaredByTheLast(x: Reader, ts: seq<Token>, name: string, i: nat)
    requires i < |ts| && ts[i].key == Some(name) && forall j | i < j < |ts| :: ts[j].key != Some(name)
    ensures Declared(x, ts, name) == x.truth(ts[i].rest)
  {
    if i < |ts| - 1 { DeclaredByTheLast(x, ts[..|ts| - 1], name, i); }
  }

  /** One that has none blocks. */
  lemma {:induction false} WithoutEntryItBlocks(x: Reader, ts: seq<Token>, d: nat, name: string)
    requires ReadEntries(x, ts, d).Some? && name in ALL_VERIFIERS
    requires forall j | 0 <= j < |ts| :: ts[j].key != Some(name)
    ensures name in ReadEntries(x, ts, d).value
  {
    Undeclared(x, ts, name);
  }

  lemma {:induction false} Undeclared(x: Reader, ts: seq<Token>, name: string)
    requires forall j | 0 <= j < |ts| :: ts[j].key != Some(name)
    ensures Declared(x, ts, name) == None
  {
    if ts != [] { Undeclared(x, ts[..|ts| - 1], name); }
  }

  // ---------------------------------------------------------------- the block as tokens

  const TOP := Token("verification:", 0, false, Some(KEY), "")
  const INNER_TOKEN := Token("  verifiers:", 2, false, Some(INNER), "")

  function EntryToken(name: string, blocking: bool): Token {
    Token(Entry(name, blocking), 4, false, Some(name), if blocking then "true" else "false")
  }

  function EntryTokens(names: seq<string>, wanted: set<string>): seq<Token> {
    if names == [] then []
    else EntryTokens(names[..|names| - 1], wanted) + [EntryToken(names[|names| - 1], names[|names| - 1] in wanted)]
  }

  lemma {:induction false} SpacesAre(line: string, n: nat)
    requires n < |line| && line[n] != ' ' && forall i | 0 <= i < n :: line[i] == ' '
    ensures Spaces(line) == n
    decreases n
  {
    if n > 0 { SpacesAre(line[1..], n - 1); }
  }

  /** A line whose first character other than a space is no white space and no `#` has content. */
  lemma {:induction false} HasContent(line: string, n: nat)
    requires n < |line| && (forall i | 0 <= i < n :: line[i] == ' ') && !IsSpace(line[n]) && line[n] != '#'
    ensures !IsBlank(line) && !IsComment(line)
    decreases n
  {
    if n > 0 { HasContent(line[1..], n - 1); }
  }

  predicate IsName(n: string) {
    n != "" && !IsSpace(n[0]) && n[0] != '#'
  }

  lemma EntryIsAToken(x: Reader, n: string, b: bool)
    requires IsName(n) && ReadsEntry(x, n)
    ensures TokenOf(x, Entry(n, b)) == EntryToken(n, b) && !IsBlank(Entry(n, b)) && !IsComment(Entry(n, b))
  {
    var line := Entry(n, b);
    assert line[4] == n[0];
    SpacesAre(line, 4);
    HasContent(line, 4);
  }

  lemma {:induction false} EntriesAreTokens(x: Reader, names: seq<string>, wanted: set<string>)
    requires forall n | n in names :: IsName(n)
    requires forall n | n in names :: ReadsEntry(x, n)
    ensures Tokens(x, Entries(names, wanted)) == EntryTokens(names, wanted)
  {
    if names != [] {
      var front, last := names[..|names| - 1], names[|names| - 1];
      assert names == front + [last];
      EntriesAreTokens(x, front, wanted);
      EntryIsAToken(x, last, last in wanted);
      var lines := Entries(names, wanted);
      assert lines[..|lines| - 1] == Entries(front, wanted);
    }
  }

  lemma NamesAreNames()
    ensures forall n | n in ALL_VERIFIERS :: IsName(n)
  {
  }

  lemma OneToken(x: Reader, line: string)
    requires !IsBlank(line) && !IsComment(line)
    ensures Tokens(x, [line]) == [TokenOf(x, line)]
  {
    assert [line][..0] == [];
  }

  lemma KeyLinesAreTokens(x: Reader)
    requires ReadsPlainLines(x)
    ensures Tokens(x, ["verification:"]) == [TOP] && Tokens(x, ["  verifiers:"]) == [INNER_TOKEN]
  {
    SpacesAre("verification:", 0);
    HasContent("verification:", 0);
    OneToken(x, "verification:");
    SpacesAre("  verifiers:", 2);
    HasContent("  verifiers:", 2);
    OneToken(x, "  verifiers:");
  }

  lemma {:induction false} NotesHaveNoTokens(x: Reader, notes: seq<string>)
    requires forall i | 0 <= i < |notes| :: IsComment(notes[i])
    ensures Tokens(x, notes) == []
  {
    if notes != [] { NotesHaveNoTokens(x, notes[..|notes| - 1]); }
  }

  lemma BlockTokens(x: Reader, notes: seq<string>, wanted: set<string>)
    requires ReadsPlainLines(x) && AreNotes(notes)
    ensures Tokens(x, Block(notes, wanted)) == [TOP] + [INNER_TOKEN] + EntryTokens(ALL_VERIFIERS, wanted)
  {
    var head, mid, entries := ["verification:"], ["  verifiers:"], Entries(ALL_VERIFIERS, wanted);
    KeyLinesAreTokens(x);
    NotesHaveNoTokens(x, notes);
    NamesAreNames();
    EntriesAreTokens(x, ALL_VERIFIERS, wanted);
    TokensConcat(x, head, notes);
    TokensConcat(x, head + notes, mid);
    TokensConcat(x, head + notes + mid, entries);
    assert Tokens(x, head + notes) == [TOP];
  }

  lemma {:induction false} EntriesDeclare(x: Reader, names: seq<string>, wanted: set<string>, name: string)
    requires x.truth("true") == Some(true) && x.truth("false") == Some(false) && name in names
    ensures Declared(x, EntryTokens(names, wanted), name) == Some(name in wanted)
  {
    var front, last := names[..|names| - 1], names[|names| - 1];
    assert names == front + [last];
    if last != name { EntriesDeclare(x, front, wanted, name); }
  }

  lemma {:induction false} EntriesAreEntries(x: Reader, names: seq<string>, wanted: set<string>)
    requires x.truth("true") == Some(true) && x.truth("false") == Some(false)
    requires forall n | n in names :: n in ALL_VERIFIERS
    ensures |EntryTokens(names, wanted)| == |names|
    ensures forall i | 0 <= i < |names| :: IsEntry(x, EntryTokens(names, wanted)[i], 4)
  {
    if names != [] {
      assert names == names[..|names| - 1] + [names[|names| - 1]];
      EntriesAreEntries(x, names[..|names| - 1], wanted);
    }
  }

  // ---------------------------------------------------------------- what a mapping in two parts reads as

  /** The mapping under the key: the block's own lines, and what is left over below them. */
  function Nested(wanted: set<string>, leftover: seq<Token>): seq<Token> {
    [INNER_TOKEN] + EntryTokens(ALL_VERIFIERS, wanted) + leftover
  }

  /** Lines that add other keys beside `verifiers`, and nothing else. */
  predicate Harmless(leftover: seq<Token>) {
    && (forall t | t in leftover :: FitsMapping(t, 2) && !InnerKeyAt(2)(t))
    && (leftover != [] ==> leftover[0].indent == 2)
  }

  lemma NestedFits(x: Reader, wanted: set<string>, leftover: seq<Token>)
    requires ReadsPlainLines(x)
    ensures (forall t | t in Nested(wanted, leftover) :: FitsMapping(t, 2)) <==>
            forall t | t in leftover :: FitsMapping(t, 2)
  {
    EntriesAreEntries(x, ALL_VERIFIERS, wanted);
    var all := Nested(wanted, leftover);
    assert forall t | t in leftover :: t in all;
  }

  /** The value of `verifiers`, when nothing left over has that key. */
  lemma InnerValue(x: Reader, wanted: set<string>, leftover: seq<Token>)
    requires ReadsPlainLines(x) && forall t | t in leftover :: !InnerKeyAt(2)(t)
    ensures LastValue(Nested(wanted, leftover), InnerKeyAt(2), DeeperThan(2)) ==
            Some(("", EntryTokens(ALL_VERIFIERS, wanted) + Run(leftover, 0, DeeperThan(2))))
  {
    EntriesAreEntries(x, ALL_VERIFIERS, wanted);
    var entries, more := EntryTokens(ALL_VERIFIERS, wanted), Run(leftover, 0, DeeperThan(2));
    var body, rest := entries + more, leftover[|more|..];
    forall i | 0 <= i < |body| ensures !InnerKeyAt(2)(body[i]) && DeeperThan(2)(body[i]) {
      if i >= |entries| { assert body[i] == leftover[i - |entries|] && leftover[i - |entries|] in leftover; }
    }
    assert [INNER_TOKEN] + body + rest == Nested(wanted, leftover);
    FirstKeyDecides(INNER_TOKEN, body, rest, InnerKeyAt(2), DeeperThan(2));
  }

  lemma EntriesAreRead(x: Reader, wanted: set<string>)
    requires ReadsPlainLines(x) && wanted <= Everyone()
    ensures ReadEntries(x, EntryTokens(ALL_VERIFIERS, wanted), 4) == Some(wanted)
  {
    var entries := EntryTokens(ALL_VERIFIERS, wanted);
    EntriesAreEntries(x, ALL_VERIFIERS, wanted);
    forall n | n in ALL_VERIFIERS ensures Declared(x, entries, n) == Some(n in wanted) {
      EntriesDeclare(x, ALL_VERIFIERS, wanted, n);
    }
    assert wanted == set n | n in ALL_VERIFIERS && Declared(x, entries, n) != Some(false);
  }

  /** The mapping reads as the entries that end up under `verifiers`. */
  lemma MappingReadsItsEntries(x: Reader, wanted: set<string>, leftover: seq<Token>)
    requires ReadsPlainLines(x)
    requires forall t | t in leftover :: FitsMapping(t, 2) && !InnerKeyAt(2)(t)
    ensures ReadMapping(x, Nested(wanted, leftover), 2) ==
            ReadEntries(x, EntryTokens(ALL_VERIFIERS, wanted) + Run(leftover, 0, DeeperThan(2)), 4)
  {
    NestedFits(x, wanted, leftover);
    InnerValue(x, wanted, leftover);
    EntriesAreEntries(x, ALL_VERIFIERS, wanted);
  }

  /** Beside harmless lines the entries read as they were written. */
  lemma HarmlessIsRead(x: Reader, wanted: set<string>, leftover: seq<Token>)
    requires ReadsPlainLines(x) && Harmless(leftover) && wanted <= Everyone()
    ensures ReadMapping(x, Nested(wanted, leftover), 2) == Some(wanted)
  {
    var entries := EntryTokens(ALL_VERIFIERS, wanted);
    MappingReadsItsEntries(x, wanted, leftover);
    assert Run(leftover, 0, DeeperThan(2)) == [] && entries + [] == entries;
    EntriesAreRead(x, wanted);
  }

  lemma {:induction false} LaterEntryDecides(x: Reader, front: seq<Token>, rest: seq<Token>, name: string)
    requires exists t | t in rest :: t.key == Some(name)
    ensures Declared(x, front + rest, name) == Declared(x, rest, name)
  {
    var ts := front + rest;
    assert ts[|ts| - 1] == rest[|rest| - 1];
    if rest[|rest| - 1].key != Some(name) {
      assert ts[..|ts| - 1] == front + rest[..|rest| - 1];
      assert rest == rest[..|rest| - 1] + [rest[|rest| - 1]];
      LaterEntryDecides(x, front, rest[..|rest| - 1], name);
    }
  }

  /** A later entry settles its name, whatever was written above it. */
  lemma MoreEntriesSettle(x: Reader, front: seq<Token>, more: seq<Token>, name: string)
    requires name in ALL_VERIFIERS && exists t | t in more :: t.key == Some(name)
    ensures var read := ReadEntries(x, front + more, 4);
            read.Some? ==> (name in read.value <==> Declared(x, more, name) != Some(false))
  {
    LaterEntryDecides(x, front, more, name);
  }

  lemma NoEntryIsRefused(x: Reader, front: seq<Token>, more: seq<Token>)
    requires more != [] && !IsEntry(x, more[0], 4)
    ensures ReadEntries(x, front + more, 4) == None
  {
    assert more[0] in front + more;
  }

  /** Beside any others, not every choice is read as it was written: not both of all and none. */
  lemma HarmfulIsNotRead(x: Reader, leftover: seq<Token>)
    requires ReadsPlainLines(x) && !Harmless(leftover)
    ensures ReadMapping(x, Nested(Everyone(), leftover), 2) != Some(Everyone())
            || ReadMapping(x, Nested({}, leftover), 2) != Some({})
  {
    SomeVerifier();
    if !(forall t | t in leftover :: FitsMapping(t, 2)) {
      NestedFits(x, {}, leftover);
    } else if Last(leftover, InnerKeyAt(2)).Some? {
      LaterInnerStands(x, Everyone(), leftover);
      LaterInnerStands(x, {}, leftover);
    } else {
      DeeperLeftover(x, leftover);
    }
  }

  /** A second `verifiers:` left over under the key stands, whatever the block says. */
  lemma LaterInnerStands(x: Reader, wanted: set<string>, leftover: seq<Token>)
    requires ReadsPlainLines(x) && (forall t | t in leftover :: FitsMapping(t, 2))
             && Last(leftover, InnerKeyAt(2)).Some?
    ensures ReadMapping(x, Nested(wanted, leftover), 2) == ReadMapping(x, leftover, 2)
  {
    NestedFits(x, wanted, leftover);
    LaterKeyDecides([INNER_TOKEN] + EntryTokens(ALL_VERIFIERS, wanted), leftover, InnerKeyAt(2), DeeperThan(2));
  }

  lemma SomeVerifier()
    ensures Everyone() != {}
  {
    assert ALL_VERIFIERS[0] in Everyone();
  }

  lemma DeeperLeftover(x: Reader, leftover: seq<Token>)
    requires ReadsPlainLines(x) && !Harmless(leftover)
    requires (forall t | t in leftover :: FitsMapping(t, 2)) && Last(leftover, InnerKeyAt(2)).None?
    ensures ReadMapping(x, Nested(Everyone(), leftover), 2) != Some(Everyone())
            || ReadMapping(x, Nested({}, leftover), 2) != Some({})
  {
    LastMeans(leftover, InnerKeyAt(2));
    forall t | t in leftover ensures !InnerKeyAt(2)(t) {
      var i :| 0 <= i < |leftover| && leftover[i] == t;
    }
    MappingReadsItsEntries(x, Everyone(), leftover);
    MappingReadsItsEntries(x, {}, leftover);
    var all, none := EntryTokens(ALL_VERIFIERS, Everyone()), EntryTokens(ALL_VERIFIERS, {});
    var more := Run(leftover, 0, DeeperThan(2));
    assert leftover[0] in leftover && more[0] == leftover[0];
    if IsEntry(x, more[0], 4) {
      var name := more[0].key.value;
      assert more[0] in more && name in Everyone();
      MoreEntriesSettle(x, all, more, name);
      MoreEntriesSettle(x, none, more, name);
    } else {
      NoEntryIsRefused(x, all, more);
    }
  }

  // ---------------------------------------------------------------- the whole text

  /** The lines with content below the block, and those of them that stay under its key. */
  function Below(x: Reader, text: string): seq<Token> {
    Tokens(x, KeptAfter(text))
  }

  function Leftover(x: Reader, text: string): seq<Token> {
    Run(Below(x, text), 0, IsNested)
  }

  /** The key is spelled again below the block, in whatever way. */
  predicate HasLaterKey(x: Reader, text: string) {
    Last(Below(x, text), IsTopKey).Some?
  }

  function ReadBack(x: Reader, text: string, notes: seq<string>, wanted: set<string>): Option<set<string>> {
    Reading(x, Tokens(x, SplitLines(Rewritten(text, notes, wanted))))
  }

  /** The lines with content down to the end of the block. */
  function Above(x: Reader, text: string, wanted: set<string>): seq<Token> {
    Tokens(x, KeptBefore(text)) + ([TOP] + ([INNER_TOKEN] + EntryTokens(ALL_VERIFIERS, wanted)))
  }

  lemma RewrittenTokens(x: Reader, text: string, notes: seq<string>, wanted: set<string>)
    requires ReadsPlainLines(x) && AreNotes(notes)
    ensures Tokens(x, SplitLines(Rewritten(text, notes, wanted))) == Above(x, text, wanted) + Below(x, text)
  {
    var before, block, after := KeptBefore(text), Block(notes, wanted), KeptAfter(text);
    BlockIsABlock(notes, wanted);
    ReplacedLines(text, block);
    TokensConcat(x, before + block, after);
    TokensConcat(x, before, block);
    BlockTokens(x, notes, wanted);
    Regroup(Tokens(x, before), [TOP], [INNER_TOKEN], EntryTokens(ALL_VERIFIERS, wanted), Below(x, text));
  }

  lemma Regroup<T>(a: seq<T>, b: seq<T>, c: seq<T>, d: seq<T>, e: seq<T>)
    ensures a + (b + c + d) + e == a + (b + (c + d)) + e
  {
  }

  /** Without a later key the answer is that of the block and its leftovers. */
  lemma BlockIsRead(x: Reader, text: string, notes: seq<string>, wanted: set<string>)
    requires ReadsPlainLines(x) && AreNotes(notes) && !HasLaterKey(x, text)
    ensures ReadBack(x, text, notes, wanted) == ReadMapping(x, Nested(wanted, Leftover(x, text)), 2)
  {
    var leftover := Leftover(x, text);
    RewrittenTokens(x, text, notes, wanted);
    var body := [INNER_TOKEN] + EntryTokens(ALL_VERIFIERS, wanted);
    EntriesAreEntries(x, ALL_VERIFIERS, wanted);
    TopDecides(Tokens(x, KeptBefore(text)), body, Below(x, text));
    assert body + leftover == Nested(wanted, leftover);
    ValueIsRead(x, Above(x, text, wanted) + Below(x, text), Nested(wanted, leftover));
    NestedIsAMapping(x, wanted, leftover);
  }

  lemma ValueIsRead(x: Reader, ts: seq<Token>, nested: seq<Token>)
    requires LastValue(ts, IsTopKey, IsNested) == Some(("", nested))
    ensures Reading(x, ts) == ReadVerification(x, "", nested)
  {
  }

  lemma NestedIsAMapping(x: Reader, wanted: set<string>, leftover: seq<Token>)
    ensures ReadVerification(x, "", Nested(wanted, leftover)) == ReadMapping(x, Nested(wanted, leftover), 2)
  {
    assert Nested(wanted, leftover)[0] == INNER_TOKEN;
  }

  lemma TopDecides(before: seq<Token>, body: seq<Token>, below: seq<Token>)
    requires Last(below, IsTopKey).None? && forall i | 0 <= i < |body| :: IsNested(body[i])
    ensures LastValue(before + ([TOP] + body) + below, IsTopKey, IsNested) == Some(("", body + Run(below, 0, IsNested)))
  {
    var all := [TOP] + body + below;
    TopAlone(body, below);
    LaterKeyDecides(before, all, IsTopKey, IsNested);
    assert before + all == before + ([TOP] + body) + below;
  }

  lemma TopAlone(body: seq<Token>, below: seq<Token>)
    requires Last(below, IsTopKey).None? && forall i | 0 <= i < |body| :: IsNested(body[i])
    ensures var all := [TOP] + body + below;
            && Last(all, IsTopKey).Some?
            && LastValue(all, IsTopKey, IsNested) == Some(("", body + Run(below, 0, IsNested)))
  {
    var leftover := Run(below, 0, IsNested);
    var rest := below[|leftover|..];
    LastMeans(below, IsTopKey);
    assert [TOP] + (body + leftover) + rest == [TOP] + body + below;
    LastIs([TOP] + body + below, 0, IsTopKey);
    FirstKeyDecides(TOP, body + leftover, rest, IsTopKey, IsNested);
  }

  /** With one, whatever was written makes no difference. */
  lemma LaterKeyStands(x: Reader, text: string, notes: seq<string>, wanted: set<string>)
    requires ReadsPlainLines(x) && AreNotes(notes) && HasLaterKey(x, text)
    ensures ReadBack(x, text, notes, wanted) == Reading(x, Below(x, text))
  {
    RewrittenTokens(x, text, notes, wanted);
    LaterKeyDecides(Above(x, text, wanted), Below(x, text), IsTopKey, IsNested);
    SameReading(x, Above(x, text, wanted) + Below(x, text), Below(x, text));
  }

  lemma SameReading(x: Reader, ts: seq<Token>, us: seq<Token>)
    requires LastValue(ts, IsTopKey, IsNested) == LastValue(us, IsTopKey, IsNested)
    ensures Reading(x, ts) == Reading(x, us)
  {
  }

  /**
   What was written is what is read back, for every choice of verifiers, exactly when the key is not
   spelled again below the block and the lines that are left over under it only add other keys.
   */
  lemma WrittenIsReadBack(x: Reader, text: string, notes: seq<string>)
    requires ReadsPlainLines(x) && AreNotes(notes)
    ensures (forall wanted | wanted <= Everyone() :: ReadBack(x, text, notes, wanted) == Some(wanted)) <==>
            !HasLaterKey(x, text) && Harmless(Leftover(x, text))
  {
    SomeVerifier();
    if HasLaterKey(x, text) {
      LaterKeyStands(x, text, notes, Everyone());
      LaterKeyStands(x, text, notes, {});
    } else if Harmless(Leftover(x, text)) {
      forall wanted | wanted <= Everyone() ensures ReadBack(x, text, notes, wanted) == Some(wanted) {
        BlockIsRead(x, text, notes, wanted);
        HarmlessIsRead(x, wanted, Leftover(x, text));
      }
    } else {
      BlockIsRead(x, text, notes, Everyone());
      BlockIsRead(x, text, notes, {});
      HarmfulIsNotRead(x, Leftover(x, text));
    }
    assert Everyone() <= Everyone() && {} <= Everyone();
  }

  // ---------------------------------------------------------------- a comment in the first column

  /** A block broken by a comment in the first column, with one verifier turned off below it. */
  function Remainder(comment: string, name: string): seq<string> {
    [comment, "  verifiers:", Entry(name, false)]
  }

  function Broken(comment: string, name: string): string {
    Lines(["verification:"] + Remainder(comment, name))
  }

  /** What follows the key of a text is kept, from the first line on that does not belong to it. */
  lemma KeptFromTheFirstLine(key: string, rest: seq<string>)
    requires OneLine(key) && IsKey(key) && AllOneLine(rest) && rest != [] && !Belongs(rest[0])
    ensures KeptAfter(Lines([key] + rest)) == rest
  {
    var lines := [key] + rest;
    SplitOfLines(lines);
    FirstIs(lines, 0, IsKey);
    RunEndIs(lines, 1, 1, Belongs);
    assert lines[1..] == rest;
  }

  lemma PlainLinesAreLines(name: string)
    requires name in ALL_VERIFIERS
    ensures OneLine("verification:") && IsKey("verification:") && OneLine("  verifiers:") && OneLine(Entry(name, false))
  {
    BlockIsABlock([], {});
    var block := Block([], {});
    assert block[0] == "verification:" && block[1] == "  verifiers:";
    NamesAreLines();
    var i :| 0 <= i < |ALL_VERIFIERS| && ALL_VERIFIERS[i] == name;
    assert OneLine(ALL_VERIFIERS[i]);
  }

  lemma RemainderTokens(x: Reader, comment: string, name: string)
    requires ReadsPlainLines(x) && comment != "" && comment[0] == '#' && name in ALL_VERIFIERS
    ensures Tokens(x, Remainder(comment, name)) == [INNER_TOKEN] + [EntryToken(name, false)]
  {
    EntryAlone(x, name);
    KeyLinesAreTokens(x);
    NotesHaveNoTokens(x, [comment]);
    ThreeLines(x, comment, "  verifiers:", Entry(name, false), INNER_TOKEN, EntryToken(name, false));
  }

  lemma EntryAlone(x: Reader, name: string)
    requires ReadsPlainLines(x) && name in ALL_VERIFIERS
    ensures Tokens(x, [Entry(name, false)]) == [EntryToken(name, false)]
  {
    NamesAreNames();
    EntryIsAToken(x, name, false);
    OneToken(x, Entry(name, false));
  }

  lemma ThreeLines(x: Reader, a: string, b: string, c: string, second: Token, third: Token)
    requires Tokens(x, [a]) == [] && Tokens(x, [b]) == [second] && Tokens(x, [c]) == [third]
    ensures Tokens(x, [a, b, c]) == [second] + [third]
  {
    TokensConcat(x, [a], [b]);
    TokensConcat(x, [a] + [b], [c]);
    assert [a] + [b] + [c] == [a, b, c];
  }

  lemma OneEntryIsRead(x: Reader, name: string)
    requires ReadsPlainLines(x) && name in ALL_VERIFIERS
    ensures ReadEntries(x, [EntryToken(name, false)], 4) == Some(Everyone() - {name})
  {
    var entries := [EntryToken(name, false)];
    assert entries[..0] == [];
    forall n | n in ALL_VERIFIERS ensures Declared(x, entries, n) == if n == name then Some(false) else None { }
    assert Everyone() - {name} == set n | n in ALL_VERIFIERS && Declared(x, entries, n) != Some(false);
  }

  lemma RemainderIsRead(x: Reader, name: string)
    requires ReadsPlainLines(x) && name in ALL_VERIFIERS
    ensures ReadMapping(x, [INNER_TOKEN] + [EntryToken(name, false)], 2) == Some(Everyone() - {name})
  {
    var entry := EntryToken(name, false);
    FirstKeyDecides(INNER_TOKEN, [entry], [], InnerKeyAt(2), DeeperThan(2));
    assert [INNER_TOKEN] + [entry] + [] == [INNER_TOKEN] + [entry];
    OneEntryIsRead(x, name);
  }

  lemma RemainderIsKept(comment: string, name: string)
    requires OneLine(comment) && comment != "" && comment[0] == '#' && name in ALL_VERIFIERS
    ensures KeptAfter(Broken(comment, name)) == Remainder(comment, name)
  {
    PlainLinesAreLines(name);
    assert comment[0] in comment && !IsSpace(comment[0]);
    KeptFromTheFirstLine("verification:", Remainder(comment, name));
  }

  lemma RunIsAll<T>(ts: seq<T>, kind: T -> bool)
    requires forall i | 0 <= i < |ts| :: kind(ts[i])
    ensures Run(ts, 0, kind) == ts
  {
    RunEndIs(ts, 0, |ts|, kind);
  }

  lemma AllIsLeftOver(x: Reader, text: string, ts: seq<Token>)
    requires Tokens(x, KeptAfter(text)) == ts && forall i | 0 <= i < |ts| :: IsNested(ts[i])
    ensures Leftover(x, text) == ts && !HasLaterKey(x, text)
  {
    LastMeans(ts, IsTopKey);
    RunIsAll(ts, IsNested);
  }

  lemma LeftoverStands(x: Reader, text: string, name: string, notes: seq<string>, wanted: set<string>)
    requires ReadsPlainLines(x) && AreNotes(notes) && name in ALL_VERIFIERS && !HasLaterKey(x, text)
    requires Leftover(x, text) == [INNER_TOKEN] + [EntryToken(name, false)]
    ensures ReadBack(x, text, notes, wanted) == Some(Everyone() - {name})
  {
    BlockIsRead(x, text, notes, wanted);
    LeftoverMapping(x, wanted, name);
  }

  lemma LeftoverMapping(x: Reader, wanted: set<string>, name: string)
    requires ReadsPlainLines(x) && name in ALL_VERIFIERS
    ensures ReadMapping(x, Nested(wanted, [INNER_TOKEN] + [EntryToken(name, false)]), 2) == Some(Everyone() - {name})
  {
    var leftover := [INNER_TOKEN] + [EntryToken(name, false)];
    assert InnerKeyAt(2)(leftover[0]);
    LaterInnerStands(x, wanted, leftover);
    RemainderIsRead(x, name);
  }

  lemma RemainderStands(x: Reader, text: string, name: string, notes: seq<string>, wanted: set<string>)
    requires ReadsPlainLines(x) && AreNotes(notes) && name in ALL_VERIFIERS
    requires Tokens(x, KeptAfter(text)) == [INNER_TOKEN] + [EntryToken(name, false)]
    ensures ReadBack(x, text, notes, wanted) == Some(Everyone() - {name})
  {
    AllIsLeftOver(x, text, [INNER_TOKEN] + [EntryToken(name, false)]);
    LeftoverStands(x, text, name, notes, wanted);
  }

  /** Such a text keeps its verifier turned off, whatever is asked for. */
  lemma CommentInTheFirstColumn(x: Reader, comment: string, name: string, notes: seq<string>, wanted: set<string>)
    requires ReadsPlainLines(x) && AreNotes(notes) && OneLine(comment) && comment != "" && comment[0] == '#'
             && name in ALL_VERIFIERS
    ensures ReadBack(x, Broken(comment, name), notes, wanted) == Some(Everyone() - {name})
  {
    RemainderIsKept(comment, name);
    RemainderTokens(x, comment, name);
    RemainderStands(x, Broken(comment, name), name, notes, wanted);
  }

  // ---------------------------------------------------------------- the endpoint

  datatype Answer = UnknownVerifier | NothingStored | Refused | Saved(text: string, blocking: set<string>)

  /** The verifiers that shall block: as asked, or else as they were. */
  function Wanted(current: set<string>, change: map<string, bool>): set<string> {
    set n | n in ALL_VERIFIERS && if n in change then change[n] else n in current
  }

  /** The parser and the note lines are the program's; the table holds at most one text. */
  class Settings {
    const reader: Reader
    const notes: seq<string>
    var stored: Option<string>

    constructor (reader: Reader, notes: seq<string>, stored: Option<string>)
      ensures this.reader == reader && this.notes == notes && this.stored == stored
    {
      this.reader, this.notes, this.stored := reader, notes, stored;
    }

    /** `set_verifiers`: both texts are parsed, the new one before it is written. */
    method SetVerifiers(change: map<string, bool>) returns (answer: Answer)
      requires ReadsPlainLines(reader) && AreNotes(notes)
      modifies this`stored
      ensures answer == UnknownVerifier <==> exists n | n in change :: n !in ALL_VERIFIERS
      ensures answer == NothingStored <==> old(stored) == None && forall n | n in change :: n in ALL_VERIFIERS
      ensures !answer.Saved? ==> stored == old(stored)
      ensures answer == Refused ==>
                var current := Parse(reader, old(stored).value);
                || current == None
                || Parse(reader, Rewritten(old(stored).value, notes, Wanted(current.value, change))) == None
      ensures answer.Saved? ==>
                && Parse(reader, old(stored).value).Some?
                && answer.text ==
                   Rewritten(old(stored).value, notes, Wanted(Parse(reader, old(stored).value).value, change))
                && stored == Some(answer.text) && Parse(reader, answer.text) == Some(answer.blocking)
      ensures answer.Saved? && !HasLaterKey(reader, old(stored).value)
              && Harmless(Leftover(reader, old(stored).value)) ==>
                forall n :: n in answer.blocking <==>
                  && n in ALL_VERIFIERS
                  && if n in change then change[n] else n in Parse(reader, old(stored).value).value
    {
      if exists n | n in change :: n !in ALL_VERIFIERS { return UnknownVerifier; }
      if stored == None { return NothingStored; }
      var current := Parse(reader, stored.value);
      if current == None { return Refused; }
      var wanted := Wanted(current.value, change);
      var updated := WithVerifiers(stored.value, notes, wanted);
      var confirmed := Parse(reader, updated);
      if confirmed == None { return Refused; }
      WrittenIsReadBack(reader, stored.value, notes);
      assert wanted <= Everyone();
      assert Parse(reader, updated) == ReadBack(reader, stored.value, notes, wanted);
      stored := Some(updated);
      answer := Saved(updated, confirmed.value);
    }
  }
}
