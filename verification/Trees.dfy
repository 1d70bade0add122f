/**
 What a push puts on the branch: the tree a commit gets on each platform
 (`engine/adapters/scm/github.py`, `engine/adapters/scm/azure_repos.py`).
 */
module Trees {
  import opened Options
  import opened Text
  import opened Globs
  import opened Policy
  import opened FlowModel

  type Tree = map<string, string>

  /** `path.lstrip("/")`. */
  function Stripped(path: string): string {
    if path != "" && path[0] == '/' then Stripped(path[1..]) else path
  }

  /** Slashes at the front are taken off, all of them, and nothing else. */
  lemma {:induction false} StrippedMeaning(path: string) returns (n: nat)
    ensures n <= |path| && Stripped(path) == path[n..]
    ensures (forall i | 0 <= i < n :: path[i] == '/') && (n < |path| ==> path[n] != '/')
  {
    n := 0;
    if path != "" && path[0] == '/' {
      var m := StrippedMeaning(path[1..]);
      n := m + 1;
      assert path[1..][m..] == path[n..];
    }
  }

  /** A tree with edits laid over it, later edits over earlier ones. */
  function Apply(t: Tree, edits: seq<Edit>): Tree {
    if edits == [] then t
    else
      var before, e := Apply(t, edits[..|edits| - 1]), edits[|edits| - 1];
      if e.deleted then before - {Stripped(e.path)} else before[Stripped(e.path) := e.content]
  }

  /** The edit that decides a path. */
  function Deciding(edits: seq<Edit>, path: string): Option<Edit> {
    if edits == [] then None
    else if Stripped(edits[|edits| - 1].path) == path then Some(edits[|edits| - 1])
    else Deciding(edits[..|edits| - 1], path)
  }

  function At(t: Tree, path: string): Option<string> {
    if path in t then Some(t[path]) else None
  }

  lemma {:induction false} ApplyAt(t: Tree, edits: seq<Edit>, path: string)
    ensures At(Apply(t, edits), path) ==
            match Deciding(edits, path)
            case None => At(t, path)
            case Some(e) => if e.deleted then None else Some(e.content)
  {
    if edits != [] { ApplyAt(t, edits[..|edits| - 1], path); }
  }

  /** The last edit of a path stands: its content is there, or nothing if it deletes; other paths keep theirs. */
  lemma {:induction false} LastEditStands(t: Tree, edits: seq<Edit>, path: string, i: nat)
    requires i < |edits| && Stripped(edits[i].path) == path
    requires forall j | i < j < |edits| :: Stripped(edits[j].path) != path
    ensures At(Apply(t, edits), path) == if edits[i].deleted then None else Some(edits[i].content)
  {
    if i < |edits| - 1 { LastEditStands(t, edits[..|edits| - 1], path, i); }
  }

  lemma {:induction false} OtherPathsStay(t: Tree, edits: seq<Edit>, path: string)
    requires forall j | 0 <= j < |edits| :: Stripped(edits[j].path) != path
    ensures At(Apply(t, edits), path) == At(t, path)
  {
    if edits != [] { OtherPathsStay(t, edits[..|edits| - 1], path); }
  }

  lemma SameTree(a: Tree, b: Tree)
    ensures a == b <==> forall path :: At(a, path) == At(b, path)
  {
    if forall path :: At(a, path) == At(b, path) {
      forall path ensures path in a <==> path in b { assert At(a, path) == At(b, path); }
      forall path | path in a ensures a[path] == b[path] { assert At(a, path) == At(b, path); }
    }
  }

  // ---------------------------------------------------------------- GitHub

  /** An entry of the posted tree; no blob removes the path. */
  datatype Entry = Entry(path: string, blob: Option<string>)

  function EntryOf(e: Edit): Entry {
    Entry(Stripped(e.path), if e.deleted then None else Some(e.content))
  }

  /** The platform lays the entries over the base tree it was given. */
  function Posted(base: Tree, entries: seq<Entry>): Tree {
    if entries == [] then base
    else
      var before, x := Posted(base, entries[..|entries| - 1]), entries[|entries| - 1];
      if x.blob.None? then before - {x.path} else before[x.path := x.blob.value]
  }

  /** The loop that fills the entries, one blob per edit that is not a deletion. */
  method TreeEntries(edits: seq<Edit>) returns (entries: seq<Entry>)
    ensures |entries| == |edits| && forall i | 0 <= i < |edits| :: entries[i] == EntryOf(edits[i])
  {
    entries := [];
    for i := 0 to |edits|
      invariant |entries| == i && forall j | 0 <= j < i :: entries[j] == EntryOf(edits[j])
    {
      if edits[i].deleted {
        entries := entries + [Entry(Stripped(edits[i].path), None)];
        continue;
      }
      entries := entries + [Entry(Stripped(edits[i].path), Some(edits[i].content))];
    }
  }

  /** Laid over a tree, the entries amount to the edits. */
  lemma {:induction false} EntriesAmountToEdits(base: Tree, edits: seq<Edit>, entries: seq<Entry>)
    requires |entries| == |edits| && forall i | 0 <= i < |edits| :: entries[i] == EntryOf(edits[i])
    ensures Posted(base, entries) == Apply(base, edits)
  {
    if edits != [] { EntriesAmountToEdits(base, edits[..|edits| - 1], entries[..|entries| - 1]); }
  }

  // ---------------------------------------------------------------- Azure

  datatype ChangeType = Add | Change | Delete

  datatype TipChange = TipChange(kind: ChangeType, path: string, content: string)

  function ChangeOf(existing: set<string>, e: Edit): TipChange {
    var path := Stripped(e.path);
    if e.deleted then TipChange(Delete, path, "")
    else TipChange(if path in existing then Change else Add, path, e.content)
  }

  /** The platform refuses to add what exists and to change or delete what does not. */
  function Accepted(tip: Tree, changes: seq<TipChange>): Option<Tree> {
    if changes == [] then Some(tip)
    else
      var before, c := Accepted(tip, changes[..|changes| - 1]), changes[|changes| - 1];
      if before.None? then None
      else if (c.path in before.value) == (c.kind == Add) then None
      else Some(if c.kind == Delete then before.value - {c.path} else before.value[c.path := c.content])
  }

  /** The edits come from one map, so they decide different paths. */
  predicate OnePerPath(edits: seq<Edit>) {
    forall i, j | 0 <= i < j < |edits| :: Stripped(edits[i].path) != Stripped(edits[j].path)
  }

  lemma {:induction false} UndecidedBefore(edits: seq<Edit>, path: string)
    requires forall i | 0 <= i < |edits| :: Stripped(edits[i].path) != path
    ensures Deciding(edits, path) == None
  {
    if edits != [] { UndecidedBefore(edits[..|edits| - 1], path); }
  }

  /** Every deletion removes something the tip has. */
  predicate DeletesExist(tip: Tree, edits: seq<Edit>) {
    forall i | 0 <= i < |edits| && edits[i].deleted :: Stripped(edits[i].path) in tip
  }

  /**
   The changes sent to Azure, whose kinds are chosen from the paths at the commit built on, amount to
   laying the edits over that commit's tree, and are refused exactly when a deletion finds nothing.
   */
  lemma {:induction false} ChangesAmountToEdits(tip: Tree, edits: seq<Edit>, changes: seq<TipChange>)
    requires OnePerPath(edits) && |changes| == |edits|
    requires forall i | 0 <= i < |edits| :: changes[i] == ChangeOf(tip.Keys, edits[i])
    ensures Accepted(tip, changes) == if DeletesExist(tip, edits) then Some(Apply(tip, edits)) else None
  {
    if edits != [] {
      var front, e := edits[..|edits| - 1], edits[|edits| - 1];
      ChangesAmountToEdits(tip, front, changes[..|changes| - 1]);
      UndecidedBefore(front, Stripped(e.path));
      ApplyAt(tip, front, Stripped(e.path));
      OneMoreDelete(tip, edits);
      SamePresence(Apply(tip, front), tip, Stripped(e.path));
    }
  }

  lemma OneMoreDelete(tip: Tree, edits: seq<Edit>)
    requires edits != []
    ensures var e := edits[|edits| - 1];
            DeletesExist(tip, edits) <==>
              DeletesExist(tip, edits[..|edits| - 1]) && (e.deleted ==> Stripped(e.path) in tip)
  {
    var front := edits[..|edits| - 1];
    assert forall i | 0 <= i < |front| :: front[i] == edits[i];
  }

  lemma SamePresence(a: Tree, b: Tree, path: string)
    requires At(a, path) == At(b, path)
    ensures path in a <==> path in b
  {
  }

  /** The loop that fills the changes. */
  method TipChanges(existing: set<string>, edits: seq<Edit>) returns (changes: seq<TipChange>)
    ensures |changes| == |edits| && forall i | 0 <= i < |edits| :: changes[i] == ChangeOf(existing, edits[i])
  {
    changes := [];
    for i := 0 to |edits|
      invariant |changes| == i && forall j | 0 <= j < i :: changes[j] == ChangeOf(existing, edits[j])
    {
      var path := Stripped(edits[i].path);
      if edits[i].deleted {
        changes := changes + [TipChange(Delete, path, "")];
      } else {
        changes := changes + [TipChange(if path in existing then Change else Add, path, edits[i].content)];
      }
    }
  }

  // ---------------------------------------------------------------- pass after pass

  /** The tree the `k`-th pass pushes on GitHub: always the pinned base with that pass's edits. */
  function GitHubTree(base: Tree, passes: seq<seq<Edit>>, k: nat): Tree
    requires k < |passes|
  {
    Apply(base, passes[k])
  }

  /** The tree on Azure after the first `k` passes: every pass builds on the tip. */
  function AzureTree(base: Tree, passes: seq<seq<Edit>>, k: nat): Tree
    requires k <= |passes|
  {
    if k == 0 then base else Apply(AzureTree(base, passes, k - 1), passes[k - 1])
  }

  function Concat(passes: seq<seq<Edit>>, k: nat): seq<Edit>
    requires k <= |passes|
  {
    if k == 0 then [] else Concat(passes, k - 1) + passes[k - 1]
  }

  lemma {:induction false} ApplyConcat(t: Tree, a: seq<Edit>, b: seq<Edit>)
    ensures Apply(t, a + b) == Apply(Apply(t, a), b)
    decreases |b|
  {
    if b == [] {
      assert a + b == a;
    } else {
      assert (a + b)[..|a + b| - 1] == a + b[..|b| - 1];
      ApplyConcat(t, a, b[..|b| - 1]);
    }
  }

  /** On Azure the branch holds the base with the edits of every pass so far. */
  lemma {:induction false} AzureAccumulates(base: Tree, passes: seq<seq<Edit>>, k: nat)
    requires k <= |passes|
    ensures AzureTree(base, passes, k) == Apply(base, Concat(passes, k))
  {
    if k > 0 {
      AzureAccumulates(base, passes, k - 1);
      ApplyConcat(base, Concat(passes, k - 1), passes[k - 1]);
    }
  }

  /**
   The two platforms agree after pass `k` exactly when, before it, every path the pass leaves alone
   still had its base content on the Azure branch.
   */
  lemma PlatformsAgreeExactly(base: Tree, passes: seq<seq<Edit>>, k: nat)
    requires k < |passes|
    ensures GitHubTree(base, passes, k) == AzureTree(base, passes, k + 1) <==>
            forall path | Deciding(passes[k], path) == None :: At(AzureTree(base, passes, k), path) == At(base, path)
  {
    var g, a := GitHubTree(base, passes, k), AzureTree(base, passes, k + 1);
    forall path
      ensures At(g, path) == At(a, path) <==>
              (Deciding(passes[k], path) == None ==> At(AzureTree(base, passes, k), path) == At(base, path))
    {
      ApplyAt(base, passes[k], path);
      ApplyAt(AzureTree(base, passes, k), passes[k], path);
    }
    SameTree(g, a);
  }

  // ---------------------------------------------------------------- protected paths

  function EditPaths(edits: seq<Edit>): seq<string> {
    seq(|edits|, i requires 0 <= i < |edits| => edits[i].path)
  }

  /** If the check passes, the pushed tree agrees with the base on every protected path. */
  lemma ProtectedContentStays(base: Tree, edits: seq<Edit>, path: string)
    requires forall e | e in edits :: GitStyle(e.path)
    requires NotProtected(EditPaths(edits)) && Protected(path)
    ensures At(Apply(base, edits), path) == At(base, path)
  {
    var paths := EditPaths(edits);
    forall p | p in paths ensures GitStyle(p) {
      var i :| 0 <= i < |paths| && paths[i] == p;
      assert edits[i] in edits;
    }
    NotProtectedMeaning(paths);
    forall i | 0 <= i < |edits| ensures Stripped(edits[i].path) != path {
      assert paths[i] in paths && edits[i] in edits;
      GitStyleIsStripped(edits[i].path);
    }
    UndecidedBefore(edits, path);
    ApplyAt(base, edits, path);
  }

  lemma GitStyleIsStripped(path: string)
    requires GitStyle(path)
    ensures Stripped(path) == path
  {
    assert path != "" && path[0] == '/' ==> StartsWith(path, "/");
  }
}
