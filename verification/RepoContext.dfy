/**
 The import graph of a repository and its bounded closure (`engine/nodes/repo_context.py`). A file is
 given by the specifiers its text mentions; reading them out of the text is a regular expression search
 and not part of this model.
 */
module RepoContext {
  import opened Options
  import opened Text

  // ---------------------------------------------------------------- where a specifier points

  /** Segments that mean something: the others are skipped. */
  function Meaningful(parts: seq<string>): (r: seq<string>)
    ensures forall p | p in r :: p in parts && p != "" && p != "."
  {
    if parts == [] then []
    else
      var rest := Meaningful(parts[..|parts| - 1]);
      var last := parts[|parts| - 1];
      assert parts == parts[..|parts| - 1] + [last];
      if last == "" || last == "." then rest else rest + [last]
  }

  /** Walking down segment by segment, `..` going back up and stopping at the root. */
  function Walked(parts: seq<string>): (stack: seq<string>)
    ensures forall p | p in stack :: p in parts && p != ".."
  {
    if parts == [] then []
    else
      var stack, last := Walked(parts[..|parts| - 1]), parts[|parts| - 1];
      assert parts == parts[..|parts| - 1] + [last];
      if last != ".." then stack + [last] else if stack == [] then [] else stack[..|stack| - 1]
  }

  method Walk(parts: seq<string>) returns (stack: seq<string>)
    ensures stack == Walked(parts)
  {
    stack := [];
    for i := 0 to |parts|
      invariant stack == Walked(parts[..i])
    {
      assert parts[..i + 1][..i] == parts[..i];
      if parts[i] == ".." {
        if stack != [] { stack := stack[..|stack| - 1]; }
      } else {
        stack := stack + [parts[i]];
      }
    }
    assert parts[..|parts|] == parts;
  }

  function DirectoryOf(path: string): string {
    Join('/', Split('/', path)[..|Split('/', path)| - 1])
  }

  function RelativeSegments(specifier: string, source: string): seq<string> {
    Meaningful(Split('/', DirectoryOf(source) + "/" + specifier))
  }

  function Stem(specifier: string, source: string): string {
    if StartsWith(specifier, "@/") then specifier[2..]
    else if StartsWith(specifier, ".") then Join('/', Walked(RelativeSegments(specifier, source)))
    else if '.' in specifier && '/' !in specifier then Join('/', Split('.', specifier))
    else specifier
  }

  const ENDINGS: seq<string> := [
    "", ".ts", ".tsx", ".js", ".jsx", ".mjs", ".css", ".py", "/index.ts", "/index.tsx", "/index.js", "/index.jsx"
  ]

  /** The first of the candidates that is a file. */
  function Candidate(stem: string, endings: seq<string>, known: set<string>): (r: Option<string>)
    ensures r.Some? ==> r.value in known
  {
    if endings == [] then None
    else if stem + endings[0] in known then Some(stem + endings[0])
    else Candidate(stem, endings[1..], known)
  }

  lemma {:induction false} CandidateIsTheFirst(stem: string, endings: seq<string>, known: set<string>)
    ensures match Candidate(stem, endings, known)
            case None => forall i | 0 <= i < |endings| :: stem + endings[i] !in known
            case Some(file) => exists i | 0 <= i < |endings| ::
              stem + endings[i] == file && forall j | 0 <= j < i :: stem + endings[j] !in known
  {
    if endings != [] && stem + endings[0] !in known {
      var rest := endings[1..];
      CandidateIsTheFirst(stem, rest, known);
      if Candidate(stem, rest, known).Some? {
        var i :| 0 <= i < |rest| && stem + rest[i] == Candidate(stem, rest, known).value
          && forall j | 0 <= j < i :: stem + rest[j] !in known;
        assert endings[i + 1] == rest[i];
        forall j | 0 <= j < i + 1 ensures stem + endings[j] !in known {
          if j > 0 { assert endings[j] == rest[j - 1]; }
        }
      }
    }
  }

  function Resolution(specifier: string, source: string, known: set<string>): (r: Option<string>)
    ensures r.Some? ==> r.value in known
  {
    Candidate(Stem(specifier, source), ENDINGS, known)
  }

  method Resolve(specifier: string, source: string, known: set<string>) returns (r: Option<string>)
    ensures r == Resolution(specifier, source, known)
  {
    var stem := specifier;
    if StartsWith(specifier, "@/") {
      stem := specifier[2..];
    } else if StartsWith(specifier, ".") {
      var stack := Walk(RelativeSegments(specifier, source));
      stem := Join('/', stack);
    } else if '.' in specifier && '/' !in specifier {
      stem := Join('/', Split('.', specifier));
    }
    r := Candidate(stem, ENDINGS, known);
  }

  predicate Plain(segment: string) {
    segment != "" && segment != "." && segment != ".." && '/' !in segment
  }

  lemma WalkedIsPlain(parts: seq<string>)
    requires forall p | p in parts :: '/' !in p
    ensures forall p | p in Walked(Meaningful(parts)) :: Plain(p)
  {
  }

  lemma StemOfRelative(specifier: string, source: string)
    requires StartsWith(specifier, ".")
    ensures Stem(specifier, source) == Join('/', Walked(RelativeSegments(specifier, source)))
  {
    StartsByFirst(specifier);
  }

  lemma StartsByFirst(s: string)
    ensures StartsWith(s, ".") <==> s != "" && s[0] == '.'
    ensures StartsWith(s, "@/") <==> |s| >= 2 && s[0] == '@' && s[1] == '/'
  {
    if s != "" { assert s[..1] == [s[0]]; }
    if |s| >= 2 { assert s[..2] == [s[0], s[1]]; }
  }

  /** Behind the alias the rest is a path from the root. */
  lemma StemOfAlias(path: string, source: string)
    ensures Stem("@/" + path, source) == path
  {
    assert ("@/" + path)[..2] == "@/" && ("@/" + path)[2..] == path;
  }

  /** A dotted module name is a path, its dots read as slashes. */
  lemma StemOfDotted(specifier: string, source: string)
    requires specifier != "" && specifier[0] != '.' && '.' in specifier && '/' !in specifier
    ensures |Stem(specifier, source)| == |specifier|
    ensures forall i | 0 <= i < |specifier| ::
              Stem(specifier, source)[i] == if specifier[i] == '.' then '/' else specifier[i]
  {
    StartsByFirst(specifier);
    DotsBecomeSlashes(specifier);
  }

  lemma {:induction false} DotsBecomeSlashes(s: string)
    ensures var r := Join('/', Split('.', s));
            |r| == |s| && forall i | 0 <= i < |s| :: r[i] == if s[i] == '.' then '/' else s[i]
  {
    if '.' in s {
      var n := FirstIndex('.', s);
      DotsBecomeSlashes(s[n + 1..]);
      assert Split('.', s)[1..] == Split('.', s[n + 1..]);
      assert s == s[..n] + ['.'] + s[n + 1..];
    }
  }

  /** Any other specifier is its own stem: a bare name, or a path that does not start with a dot. */
  lemma StemOfOthers(specifier: string, source: string)
    requires specifier == "" || specifier[0] != '.'
    requires |specifier| < 2 || specifier[0] != '@' || specifier[1] != '/'
    requires '.' in specifier ==> '/' in specifier
    ensures Stem(specifier, source) == specifier
  {
    StartsByFirst(specifier);
  }

  /** How far a list of segments leads down: names less `..`. */
  function Net(parts: seq<string>): int {
    if parts == [] then 0 else Net(parts[..|parts| - 1]) + if parts[|parts| - 1] == ".." then -1 else 1
  }

  /** Every way down in the list is taken back by what follows it: no tail of it leads further down than up. */
  predicate AllTakenBack(parts: seq<string>) {
    forall k | 0 <= k <= |parts| :: Net(parts[k..]) <= 0
  }

  lemma NetOfTail(parts: seq<string>, k: nat)
    requires k < |parts|
    ensures Net(parts[k..]) == Net(parts[..|parts| - 1][k..]) + if parts[|parts| - 1] == ".." then -1 else 1
  {
    assert parts[k..][..|parts| - k - 1] == parts[..|parts| - 1][k..];
  }

  /** The walk ends as deep as the tail that leads furthest down. */
  lemma {:induction false} DepthOfWalk(parts: seq<string>) returns (deepest: nat)
    ensures deepest <= |parts| && Net(parts[deepest..]) == |Walked(parts)|
    ensures forall k | 0 <= k <= |parts| :: Net(parts[k..]) <= |Walked(parts)|
  {
    deepest := |parts|;
    if parts != [] {
      var front := parts[..|parts| - 1];
      var inFront := DepthOfWalk(front);
      forall k | 0 <= k < |parts|
        ensures Net(parts[k..]) == Net(front[k..]) + if parts[|parts| - 1] == ".." then -1 else 1
      {
        NetOfTail(parts, k);
      }
      assert parts[|parts|..] == [];
      if Net(parts[inFront..]) == |Walked(parts)| { deepest := inFront; }
    }
  }

  lemma EndsAtTheRootExactly(parts: seq<string>)
    ensures Walked(parts) == [] <==> AllTakenBack(parts)
  {
    var deepest := DepthOfWalk(parts);
  }

  /**
   The stem of a relative specifier is a path of plain segments, with no empty, `.` or `..` one among
   them, exactly when some way down among the segments of directory and specifier is not taken back.
   Otherwise it is empty.
   */
  lemma RelativeStemIsPlain(specifier: string, source: string)
    requires StartsWith(specifier, ".")
    ensures var stem, segments := Stem(specifier, source), RelativeSegments(specifier, source);
            && ((forall p | p in Split('/', stem) :: Plain(p)) <==> !AllTakenBack(segments))
            && (AllTakenBack(segments) ==> stem == "")
            && (!AllTakenBack(segments) ==> Split('/', stem) == Walked(segments))
  {
    var segments := RelativeSegments(specifier, source);
    var stack := Walked(segments);
    StemOfRelative(specifier, source);
    WalkedIsPlain(Split('/', DirectoryOf(source) + "/" + specifier));
    EndsAtTheRootExactly(segments);
    if stack != [] { SplitOfJoin('/', stack); }
    assert Split('/', "") == [""] && "" in [""];
  }

  /** For one, `..` in a file of a top-level directory: its stem is the empty text, whose one segment is empty. */
  lemma ParentOfATopLevelDirectory(directory: string, file: string)
    requires Plain(directory) && Plain(file)
    ensures Stem("..", Join('/', [directory, file])) == "" && !Plain(Split('/', "")[0])
  {
    RelativeIsAWalk([directory], file, [".."]);
    assert [directory] + [file] == [directory, file];
    assert Join('/', [".."]) == "..";
    var segments := RelativeSegments("..", Join('/', [directory, file]));
    ClimbIsMeaningful();
    assert segments == [directory, ".."];
    assert segments[..1] == [directory] && [directory][..0] == [];
    assert Walked([directory]) == [directory];
    StemOfRelative("..", Join('/', [directory, file]));
  }

  lemma ClimbIsMeaningful()
    ensures Meaningful([".."]) == [".."]
  {
    assert [".."][..0] == [];
  }

  lemma {:induction false} PlainSegmentsStay(parts: seq<string>)
    requires forall p | p in parts :: Plain(p)
    ensures Meaningful(parts) == parts && Walked(parts) == parts
  {
    if parts != [] {
      var front, last := parts[..|parts| - 1], parts[|parts| - 1];
      assert parts == front + [last] && Plain(last);
      assert forall p | p in front :: p in parts;
      PlainSegmentsStay(front);
    }
  }

  /** Relative resolution starts in the file's own directory and follows the specifier from there. */
  lemma RelativeIsAWalk(directory: seq<string>, file: string, hops: seq<string>)
    requires Plain(file) && (forall p | p in directory :: Plain(p))
    requires hops != [] && forall p | p in hops :: '/' !in p
    ensures RelativeSegments(Join('/', hops), Join('/', directory + [file])) == directory + Meaningful(hops)
  {
    SplitOfJoin('/', directory + [file]);
    assert (directory + [file])[..|directory|] == directory;
    var above := if directory == [] then [""] else directory;
    JoinAppend(above, hops);
    SplitOfJoin('/', above + hops);
    MeaningfulConcat(above, hops);
    PlainSegmentsStay(directory);
    assert Meaningful([""]) == [];
  }

  lemma {:induction false} MeaningfulConcat(a: seq<string>, b: seq<string>)
    ensures Meaningful(a + b) == Meaningful(a) + Meaningful(b)
  {
    if b == [] {
      assert a + b == a;
    } else {
      assert (a + b)[..|a + b| - 1] == a + b[..|b| - 1];
      MeaningfulConcat(a, b[..|b| - 1]);
    }
  }

  /** Going down into a directory and back up leaves the walk where it was. */
  lemma {:induction false} DownAndUpCancels(a: seq<string>, down: string, b: seq<string>)
    requires Plain(down)
    ensures Walked(a + [down, ".."] + b) == Walked(a + b)
  {
    var long := a + [down, ".."] + b;
    if b == [] {
      assert long == a + [down, ".."] && a + b == a;
      assert long[..|long| - 1] == a + [down];
      assert (a + [down])[..|a|] == a;
    } else {
      assert long[..|long| - 1] == a + [down, ".."] + b[..|b| - 1];
      assert (a + b)[..|a + b| - 1] == a + b[..|b| - 1];
      DownAndUpCancels(a, down, b[..|b| - 1]);
    }
  }

  lemma {:induction false} JoinAppend(a: seq<string>, b: seq<string>)
    requires a != [] && b != []
    ensures Join('/', a + b) == Join('/', a) + "/" + Join('/', b)
  {
    if |a| > 1 {
      assert (a + b)[1..] == a[1..] + b;
      JoinAppend(a[1..], b);
    } else {
      assert (a + b)[1..] == b;
    }
  }

  // ---------------------------------------------------------------- the import graph

  /** Every file of the repository, with the specifiers found in its text. */
  type Repository = map<string, seq<string>>

  /** The files that each file imports. */
  type Graph = map<string, set<string>>

  function Targets(files: Repository, path: string): set<string>
    requires path in files
  {
    NamedBy(files[path], path, files.Keys)
  }

  /** The files some specifiers point to, seen from a file. */
  function NamedBy(specifiers: seq<string>, path: string, known: set<string>): set<string> {
    set s | s in specifiers && Resolution(s, path, known).Some? :: Resolution(s, path, known).value
  }

  function GraphOf(files: Repository): (g: Graph)
    ensures g.Keys == files.Keys && Closed(g)
    ensures forall a | a in g :: g[a] == Targets(files, a)
  {
    map path | path in files :: Targets(files, path)
  }

  /** Every import of a file of the repository is a file of the repository. */
  predicate Closed(g: Graph) {
    forall a | a in g :: g[a] <= g.Keys
  }

  predicate Imports(g: Graph, a: string, b: string) {
    a in g && b in g[a]
  }

  /** The files that some file of `from` imports. */
  function Next(g: Graph, from: set<string>): (r: set<string>)
    ensures forall b :: b in r <==> exists a | a in from :: Imports(g, a, b)
  {
    set a, b | a in from && a in g && b in g[a] :: b
  }

  /** What a chain of at most `d` imports reaches from the known seeds. */
  function Within(g: Graph, seeds: set<string>, d: nat): set<string> {
    if d == 0 then seeds * g.Keys
    else Within(g, seeds, d - 1) + Next(g, Within(g, seeds, d - 1))
  }

  function Steps(depth: int): nat {
    if depth < 0 then 0 else depth
  }

  method Closure(files: Repository, seeds: set<string>, depth: int) returns (chosen: set<string>)
    ensures chosen == Within(GraphOf(files), seeds, Steps(depth))
  {
    chosen := seeds * files.Keys;
    var frontier := chosen;
    ghost var g := GraphOf(files);
    NextOfNothing(g, chosen);
    for i := 0 to Steps(depth)
      invariant InRound(g, seeds, i, chosen, frontier) && frontier <= files.Keys
    {
      var found := Found(files, frontier, chosen);
      RoundFinds(g, seeds, i, chosen, frontier);
      if found == {} {
        Saturated(g, seeds, i, Steps(depth));
        return;
      }
      chosen := chosen + found;
      frontier := found;
    }
  }

  /** After `i` rounds everything but the frontier has had its imports chosen. */
  predicate InRound(g: Graph, seeds: set<string>, i: nat, chosen: set<string>, frontier: set<string>) {
    chosen == Within(g, seeds, i) && frontier <= chosen && Next(g, chosen - frontier) <= chosen
  }

  lemma NextOfNothing(g: Graph, s: set<string>)
    ensures Next(g, s - s) <= s
  {
    assert s - s == {};
  }

  /** So the imports of the frontier alone make the next round, and none of them new means none is left. */
  lemma RoundFinds(g: Graph, seeds: set<string>, i: nat, chosen: set<string>, frontier: set<string>)
    requires InRound(g, seeds, i, chosen, frontier)
    ensures var found := Next(g, frontier) - chosen;
            && InRound(g, seeds, i + 1, chosen + found, found)
            && (found == {} ==> Next(g, chosen) <= chosen)
  {
    var found := Next(g, frontier) - chosen;
    forall b | b in Next(g, chosen) ensures b in chosen || b in found {
      var a :| a in chosen && Imports(g, a, b);
      assert a in frontier || a in chosen - frontier;
    }
    assert (chosen + found) - found == chosen;
    assert chosen + Next(g, chosen) == chosen + found;
  }

  /** The two inner loops: what the frontier imports and is not chosen yet. */
  method Found(files: Repository, frontier: set<string>, chosen: set<string>) returns (found: set<string>)
    requires frontier <= files.Keys
    ensures found == Next(GraphOf(files), frontier) - chosen && found <= files.Keys
  {
    found := {};
    var todo := frontier;
    ghost var g := GraphOf(files);
    while todo != {}
      invariant todo <= frontier
      invariant found == Next(g, frontier - todo) - chosen
    {
      var path :| path in todo;
      var more := FoundIn(files, path, chosen);
      NextOfOneMore(g, frontier - todo, path);
      assert frontier - (todo - {path}) == (frontier - todo) + {path};
      found := found + more;
      todo := todo - {path};
    }
    assert frontier - todo == frontier;
  }

  lemma NextOfOneMore(g: Graph, from: set<string>, path: string)
    requires path in g
    ensures Next(g, from + {path}) == Next(g, from) + g[path]
  {
    forall b | b in Next(g, from + {path}) ensures b in Next(g, from) + g[path] {
      var a :| a in from + {path} && Imports(g, a, b);
    }
    assert forall b | b in g[path] :: Imports(g, path, b);
  }

  method FoundIn(files: Repository, path: string, chosen: set<string>) returns (found: set<string>)
    requires path in files
    ensures found == Targets(files, path) - chosen
  {
    found := {};
    var specifiers := files[path];
    for i := 0 to |specifiers|
      invariant found == NamedBy(specifiers[..i], path, files.Keys) - chosen
    {
      var target := Resolve(specifiers[i], path, files.Keys);
      if target.Some? && target.value !in chosen { found := found + {target.value}; }
      OneMoreSpecifier(specifiers, i, path, files.Keys);
    }
    assert specifiers[..|specifiers|] == specifiers;
  }

  lemma OneMoreSpecifier(specifiers: seq<string>, i: nat, path: string, known: set<string>)
    requires i < |specifiers|
    ensures NamedBy(specifiers[..i + 1], path, known) ==
            NamedBy(specifiers[..i], path, known) +
            match Resolution(specifiers[i], path, known) case None => {} case Some(f) => {f}
  {
    assert specifiers[..i + 1] == specifiers[..i] + [specifiers[i]];
  }

  /** The files that import one of the targets and are not among them. */
  ghost predicate DependsOn(g: Graph, path: string, wanted: set<string>) {
    path in g && path !in wanted && g[path] * wanted != {}
  }

  method Dependents(files: Repository, targets: set<string>) returns (found: set<string>)
    ensures forall a :: a in found <==> DependsOn(GraphOf(files), a, targets * files.Keys)
  {
    var wanted := targets * files.Keys;
    found := {};
    if wanted == {} { return; }
    var todo := files.Keys;
    while todo != {}
      invariant todo <= files.Keys
      invariant forall a :: a in found <==> a !in todo && DependsOn(GraphOf(files), a, wanted)
    {
      var path :| path in todo;
      todo := todo - {path};
      if path !in wanted {
        var hit := MentionsAny(files, path, wanted);
        if hit { found := found + {path}; }
      }
    }
  }

  method MentionsAny(files: Repository, path: string, wanted: set<string>) returns (hit: bool)
    requires path in files
    ensures hit <==> Targets(files, path) * wanted != {}
  {
    var specifiers := files[path];
    for i := 0 to |specifiers|
      invariant forall j | 0 <= j < i :: Avoids(specifiers[j], path, files.Keys, wanted)
    {
      var target := Resolve(specifiers[i], path, files.Keys);
      if target.Some? && target.value in wanted {
        assert target.value in Targets(files, path) * wanted;
        return true;
      }
    }
    return false;
  }

  predicate Avoids(specifier: string, path: string, known: set<string>, wanted: set<string>) {
    var r := Resolution(specifier, path, known);
    r.Some? ==> r.value !in wanted
  }

  // ---------------------------------------------------------------- what the closure is

  /** A chain of imports, file after file. */
  ghost predicate IsChain(g: Graph, chain: seq<string>) {
    chain != [] && forall i | 0 <= i < |chain| - 1 :: Imports(g, chain[i], chain[i + 1])
  }

  ghost predicate Leads(g: Graph, chain: seq<string>, seeds: set<string>, to: string, d: nat) {
    IsChain(g, chain) && |chain| <= d + 1 && chain[0] in seeds * g.Keys && chain[|chain| - 1] == to
  }

  /** The closure is bounded reachability: a file is in it exactly when a chain of at most `d` imports leads there. */
  lemma {:induction false} WithinIsReachability(g: Graph, seeds: set<string>, d: nat, to: string)
    ensures to in Within(g, seeds, d) <==> exists chain :: Leads(g, chain, seeds, to, d)
  {
    if to in Within(g, seeds, d) { ChainExists(g, seeds, d, to); }
    if chain :| Leads(g, chain, seeds, to, d) { ChainStaysWithin(g, seeds, d, to, chain); }
  }

  lemma {:induction false} ChainExists(g: Graph, seeds: set<string>, d: nat, to: string)
    requires to in Within(g, seeds, d)
    ensures exists chain :: Leads(g, chain, seeds, to, d)
  {
    if d == 0 {
      assert Leads(g, [to], seeds, to, d);
    } else if to in Within(g, seeds, d - 1) {
      ChainExists(g, seeds, d - 1, to);
      var chain :| Leads(g, chain, seeds, to, d - 1);
      assert Leads(g, chain, seeds, to, d);
    } else {
      var a :| a in Within(g, seeds, d - 1) && Imports(g, a, to);
      ChainExists(g, seeds, d - 1, a);
      var chain :| Leads(g, chain, seeds, a, d - 1);
      assert Leads(g, chain + [to], seeds, to, d);
    }
  }

  lemma {:induction false} ChainStaysWithin(g: Graph, seeds: set<string>, d: nat, to: string, chain: seq<string>)
    requires Leads(g, chain, seeds, to, d)
    ensures to in Within(g, seeds, d)
    decreases d
  {
    if |chain| == 1 {
      Monotone(g, seeds, 0, d);
    } else {
      var front := chain[..|chain| - 1];
      var a := front[|front| - 1];
      assert Imports(g, chain[|chain| - 2], chain[|chain| - 2 + 1]);
      assert Leads(g, front, seeds, a, d - 1);
      ChainStaysWithin(g, seeds, d - 1, a, front);
    }
  }

  /** Following imports further only adds files. */
  lemma {:induction false} Monotone(g: Graph, seeds: set<string>, d: nat, e: nat)
    requires d <= e
    ensures Within(g, seeds, d) <= Within(g, seeds, e)
  {
    if d < e { Monotone(g, seeds, d, e - 1); }
  }

  /** Once a step adds nothing, none does: the early exit loses no file. */
  lemma {:induction false} Saturated(g: Graph, seeds: set<string>, d: nat, e: nat)
    requires d <= e && Next(g, Within(g, seeds, d)) <= Within(g, seeds, d)
    ensures Within(g, seeds, e) == Within(g, seeds, d)
  {
    if d < e { Saturated(g, seeds, d, e - 1); }
  }

  /** The closure of a union is the union of the closures. */
  lemma {:induction false} DistributesOverUnion(g: Graph, s: set<string>, t: set<string>, d: nat)
    ensures Within(g, s + t, d) == Within(g, s, d) + Within(g, t, d)
  {
    if d > 0 {
      DistributesOverUnion(g, s, t, d - 1);
      var a, b := Within(g, s, d - 1), Within(g, t, d - 1);
      assert Next(g, a + b) == Next(g, a) + Next(g, b);
    }
  }

  /** Following `d` imports and then `e` more is following `d + e`. */
  lemma {:induction false} StepsAdd(g: Graph, seeds: set<string>, d: nat, e: nat)
    requires Closed(g)
    ensures Within(g, Within(g, seeds, d), e) == Within(g, seeds, d + e)
  {
    if e == 0 {
      OnlyFiles(g, seeds, d);
      assert Within(g, seeds, d) * g.Keys == Within(g, seeds, d);
    } else {
      StepsAdd(g, seeds, d, e - 1);
    }
  }

  lemma {:induction false} OnlyFiles(g: Graph, seeds: set<string>, d: nat)
    requires Closed(g)
    ensures Within(g, seeds, d) <= g.Keys
  {
    if d > 0 { OnlyFiles(g, seeds, d - 1); }
  }

  /** The dependents of some targets are the other files whose closure of depth one meets them. */
  lemma DependentsAreTheConverse(g: Graph, path: string, wanted: set<string>)
    requires path in g && path !in wanted
    ensures DependsOn(g, path, wanted) <==> Within(g, {path}, 1) * wanted != {}
  {
    assert Within(g, {path}, 0) == {path};
    NextOfOneMore(g, {}, path);
    assert {} + {path} == {path};
    assert Within(g, {path}, 1) == {path} + g[path];
    assert ({path} + g[path]) * wanted == g[path] * wanted;
  }
}
