/**
 The repository tree cache (`engine/adapters/scm/tree_cache.py`): least recently used, with one fetch
 in flight per key. A coroutine runs undisturbed from one `await` to the next, so each method below is
 one such stretch, and every interleaving of callers is some sequence of them.
 */
module TreeCache {
  import opened Options
  import opened Text

  // ---------------------------------------------------------------- recency

  /** The keys of a log, each once, the most recently touched last. */
  function Recency<K(==)>(log: seq<K>): seq<K> {
    if log == [] then []
    else Without(Recency(log[..|log| - 1]), log[|log| - 1]) + [log[|log| - 1]]
  }

  function Without<K(==)>(s: seq<K>, k: K): (r: seq<K>)
    ensures k !in r
    ensures forall x | x in r :: x in s
    ensures forall x | x in s && x != k :: x in r
  {
    if s == [] then []
    else (if s[|s| - 1] == k then Without(s[..|s| - 1], k) else Without(s[..|s| - 1], k) + [s[|s| - 1]])
  }

  /** The last `n` elements, or all there are. */
  function Suffix<K>(s: seq<K>, n: nat): seq<K> {
    if |s| <= n then s else s[|s| - n..]
  }

  predicate Unique<K(==)>(s: seq<K>) {
    forall i, j | 0 <= i < j < |s| :: Differ(s, i, j)
  }

  predicate Differ<K(==)>(s: seq<K>, i: nat, j: nat)
    requires i < j < |s|
  {
    s[i] != s[j]
  }

  lemma {:induction false} WithoutAbsent<K>(s: seq<K>, k: K)
    requires k !in s
    ensures Without(s, k) == s
  {
    if s != [] { WithoutAbsent(s[..|s| - 1], k); }
  }

  lemma UniqueConcat<K>(a: seq<K>, b: seq<K>)
    ensures Unique(a + b) <==> Unique(a) && Unique(b) && forall x | x in a :: x !in b
  {
    var s := a + b;
    if Unique(s) { UniqueSplits(a, b); }
    if Unique(a) && Unique(b) && forall x | x in a :: x !in b {
      forall i, j | 0 <= i < j < |s| ensures Differ(s, i, j) {
        if j < |a| {
          assert Differ(a, i, j);
        } else if |a| <= i {
          assert Differ(b, i - |a|, j - |a|);
        } else {
          assert a[i] in a && b[j - |a|] in b;
        }
      }
    }
  }

  lemma UniqueSplits<K>(a: seq<K>, b: seq<K>)
    requires Unique(a + b)
    ensures Unique(a) && Unique(b) && forall x | x in a :: x !in b
  {
    var s := a + b;
    forall i, j | 0 <= i < j < |a| ensures Differ(a, i, j) { assert Differ(s, i, j); }
    forall i, j | 0 <= i < j < |b| ensures Differ(b, i, j) { assert Differ(s, |a| + i, |a| + j); }
    forall i, j | 0 <= i < |a| && 0 <= j < |b| ensures a[i] != b[j] { assert Differ(s, i, |a| + j); }
  }

  lemma {:induction false} WithoutUnique<K>(s: seq<K>, k: K)
    requires Unique(s)
    ensures Unique(Without(s, k))
    ensures |Without(s, k)| == if k in s then |s| - 1 else |s|
  {
    if s != [] {
      var front, last := s[..|s| - 1], s[|s| - 1];
      assert s == front + [last];
      UniqueConcat(front, [last]);
      WithoutUnique(front, k);
      UniqueConcat(Without(front, k), [last]);
    }
  }

  lemma {:induction false} WithoutConcat<K>(a: seq<K>, b: seq<K>, k: K)
    ensures Without(a + b, k) == Without(a, k) + Without(b, k)
  {
    if b == [] {
      assert a + b == a;
    } else {
      assert (a + b)[..|a + b| - 1] == a + b[..|b| - 1];
      WithoutConcat(a, b[..|b| - 1], k);
    }
  }

  lemma {:induction false} RecencyIsUnique<K>(log: seq<K>)
    ensures Unique(Recency(log))
    ensures forall k | k in log :: k in Recency(log)
    ensures forall k | k in Recency(log) :: k in log
  {
    if log != [] {
      var front := log[..|log| - 1];
      RecencyIsUnique(front);
      WithoutUnique(Recency(front), log[|log| - 1]);
      UniqueAppend(Without(Recency(front), log[|log| - 1]), log[|log| - 1]);
      assert log == front + [log[|log| - 1]];
    }
  }

  /** When a key was touched last. */
  function LastTouch<K(==)>(log: seq<K>, k: K): (n: nat)
    requires k in log
    ensures n < |log| && log[n] == k && k !in log[n + 1..]
  {
    if log[|log| - 1] == k then |log| - 1
    else
      var front := log[..|log| - 1];
      assert log == front + [log[|log| - 1]];
      var n := LastTouch(front, k);
      assert log[n + 1..] == front[n + 1..] + [log[|log| - 1]];
      n
  }

  predicate Before<K(==)>(log: seq<K>, a: K, b: K) {
    a in log && b in log && LastTouch(log, a) < LastTouch(log, b)
  }

  lemma {:induction false} WithoutKeepsOrder<K>(s: seq<K>, k: K, i: nat, j: nat) returns (x: nat, y: nat)
    requires i < j < |Without(s, k)|
    ensures x < y < |s| && s[x] == Without(s, k)[i] && s[y] == Without(s, k)[j]
  {
    var front := s[..|s| - 1];
    if j < |Without(front, k)| {
      x, y := WithoutKeepsOrder(front, k, i, j);
    } else {
      x := WithoutKeepsOne(front, k, i);
      y := |s| - 1;
    }
  }

  lemma {:induction false} WithoutKeepsOne<K>(s: seq<K>, k: K, i: nat) returns (x: nat)
    requires i < |Without(s, k)|
    ensures x < |s| && s[x] == Without(s, k)[i]
  {
    var front := s[..|s| - 1];
    if i < |Without(front, k)| { x := WithoutKeepsOne(front, k, i); } else { x := |s| - 1; }
  }

  /** The keys stand in the order of their last touches. */
  lemma {:induction false} RecencyIsByLastTouch<K>(log: seq<K>, i: nat, j: nat)
    requires i < j < |Recency(log)|
    ensures Before(log, Recency(log)[i], Recency(log)[j])
  {
    var front, last := log[..|log| - 1], log[|log| - 1];
    var older := Without(Recency(front), last);
    assert log == front + [last];
    RecencyIsUnique(log);
    RecencyIsUnique(front);
    var a, b := Recency(log)[i], Recency(log)[j];
    assert a == older[i] && a in older && a != last;
    assert LastTouch(log, a) == LastTouch(front, a);
    if j < |older| {
      assert b == older[j] && b in older && b != last;
      var x, y := WithoutKeepsOrder(Recency(front), last, i, j);
      RecencyIsByLastTouch(front, x, y);
    }
  }

  lemma UniqueAppend<K>(s: seq<K>, k: K)
    requires Unique(s) && k !in s
    ensures Unique(s + [k])
  {
    UniqueConcat(s, [k]);
  }

  lemma SuffixOfConcat<K>(a: seq<K>, b: seq<K>, n: nat)
    requires |b| == n || (a == [] && |b| <= n)
    ensures Suffix(a + b, n) == b
  {
    assert (a + b)[|a|..] == b;
  }

  lemma TouchRecent<K>(early: seq<K>, recent: seq<K>, n: nat, k: K)
    requires Unique(early + recent) && k in recent && (|recent| == n || (early == [] && |recent| <= n))
    ensures Suffix(Without(early + recent, k) + [k], n) == Without(recent, k) + [k]
  {
    UniqueSplits(early, recent);
    WithoutConcat(early, recent, k);
    WithoutAbsent(early, k);
    WithoutUnique(recent, k);
    var touched := Without(recent, k) + [k];
    assert Without(early + recent, k) + [k] == early + touched;
    SuffixOfConcat(early, touched, n);
  }

  /** Touching a key that is among the last `n` moves it to the end of them. */
  lemma TouchKnown<K>(s: seq<K>, n: nat, k: K)
    requires Unique(s) && k in Suffix(s, n)
    ensures Suffix(Without(s, k) + [k], n) == Without(Suffix(s, n), k) + [k]
  {
    if |s| <= n {
      assert [] + s == s;
      TouchRecent([], s, n, k);
    } else {
      assert s[..|s| - n] + s[|s| - n..] == s;
      TouchRecent(s[..|s| - n], s[|s| - n..], n, k);
    }
  }

  /** Touching any other key appends it and lets the oldest go. */
  lemma TouchNew<K>(s: seq<K>, n: nat, k: K)
    requires Unique(s) && k !in Suffix(s, n) && n > 0
    ensures Suffix(Without(s, k) + [k], n) == Suffix(Suffix(s, n) + [k], n)
  {
    if |s| > n {
      var early, recent := s[..|s| - n], s[|s| - n..];
      assert s == early + recent;
      WithoutConcat(early, recent, k);
      WithoutAbsent(recent, k);
    } else {
      WithoutAbsent(s, k);
    }
  }

  // ---------------------------------------------------------------- the identity of a fetch

  datatype Limits = Limits(maxFiles: nat, maxFileBytes: nat, maxTotalBytes: nat, exclude: seq<string>)

  datatype Request = Request(host: string, org: string, repo: string, project: Option<string>, commit: string,
                             limits: Limits)

  /** The tuple of strings a fetch is filed under. */
  datatype Key = Key(
    host: string,
    org: string,
    repo: string,
    project: string,
    commit: string,
    maxFiles: string,
    maxFileBytes: string,
    maxTotalBytes: string,
    exclude: string
  )

  datatype RepoTree = RepoTree(commit: string, files: map<string, seq<bv8>>)

  function ProjectOf(r: Request): string {
    if r.project.Some? then r.project.value else ""
  }

  function KeyOf(r: Request): Key {
    Key(r.host, r.org, r.repo, ProjectOf(r), r.commit, Decimal(r.limits.maxFiles), Decimal(r.limits.maxFileBytes),
        Decimal(r.limits.maxTotalBytes), Join('|', r.limits.exclude))
  }

  /** The same fetch: a missing project and an empty one name the same repository. */
  predicate SameFetch(r: Request, q: Request) {
    r.(project := None) == q.(project := None) && ProjectOf(r) == ProjectOf(q)
  }

  /** No pattern contains a bar, and the list is not the one empty pattern. */
  predicate Clean(parts: seq<string>) {
    parts != [""] && forall p | p in parts :: '|' !in p
  }

  /** The clean list with a given joined text. */
  function Parts(s: string): seq<string> {
    if s == "" then [] else Split('|', s)
  }

  lemma CleanListsAreTheirParts(a: seq<string>)
    requires Clean(a)
    ensures Parts(Join('|', a)) == a
  {
    if a != [] {
      SplitOfJoin('|', a);
      assert Split('|', "") == [""];
    }
  }

  lemma PartsAreClean(s: string)
    ensures Clean(Parts(s)) && Join('|', Parts(s)) == s
  {
  }

  /**
   The key identifies a fetch among requests with clean exclusion lists.
   */
  lemma KeyIdentifiesTheFetch(r: Request, q: Request)
    requires Clean(r.limits.exclude) && Clean(q.limits.exclude)
    ensures KeyOf(r) == KeyOf(q) <==> SameFetch(r, q)
  {
    if KeyOf(r) == KeyOf(q) {
      DecimalIsInjective(r.limits.maxFiles, q.limits.maxFiles);
      DecimalIsInjective(r.limits.maxFileBytes, q.limits.maxFileBytes);
      DecimalIsInjective(r.limits.maxTotalBytes, q.limits.maxTotalBytes);
      CleanListsAreTheirParts(r.limits.exclude);
      CleanListsAreTheirParts(q.limits.exclude);
    }
  }

  /**
   And exactly among them: an exclusion list is confused with no clean list if and only if it is clean
   itself. The lists `["a|b"]` and `["a", "b"]` exclude different files and share their key.
   */
  lemma CleanExactly(a: seq<string>)
    ensures Clean(a) <==> forall b | Clean(b) && Join('|', b) == Join('|', a) :: b == a
  {
    if Clean(a) {
      CleanListsAreTheirParts(a);
      forall b | Clean(b) && Join('|', b) == Join('|', a) ensures b == a { CleanListsAreTheirParts(b); }
    } else {
      PartsAreClean(Join('|', a));
      assert Parts(Join('|', a)) != a;
    }
  }

  lemma BarInAPatternCollides(r: Request)
    requires r.limits.exclude == ["a", "b"]
    ensures var q := r.(limits := r.limits.(exclude := ["a|b"]));
            KeyOf(q) == KeyOf(r) && !SameFetch(q, r)
  {
    assert Join('|', ["a", "b"][1..]) == "b";
  }

  /** Fetching is a function of what is fetched, not of how a missing project is written. */
  ghost predicate FetchesAlike(fetch: Request -> RepoTree) {
    forall r, q | SameFetch(r, q) :: fetch(r) == fetch(q)
  }

  /** The tree filed under a key: that of any clean request with the key. */
  ghost function Filed(fetch: Request -> RepoTree, k: Key): RepoTree {
    if exists q: Request :: Clean(q.limits.exclude) && KeyOf(q) == k then
      var q: Request :| Clean(q.limits.exclude) && KeyOf(q) == k;
      fetch(q)
    else RepoTree("", map[])
  }

  /** While requests are clean, a cache of filed trees answers each with the tree of that very request. */
  lemma CleanRequestsGetTheirTree(fetch: Request -> RepoTree, r: Request)
    requires FetchesAlike(fetch) && Clean(r.limits.exclude)
    ensures Filed(fetch, KeyOf(r)) == fetch(r)
  {
    var q: Request :| Clean(q.limits.exclude) && KeyOf(q) == KeyOf(r) && Filed(fetch, KeyOf(r)) == fetch(q);
    KeyIdentifiesTheFetch(r, q);
  }

  // ---------------------------------------------------------------- the cache

  const MAX_ENTRIES := 4

  datatype Fetch = Fetching | Fetched(tree: RepoTree) | FetchFailed

  /** What a caller gets at once: the tree, somebody's fetch to wait for, or a fetch of its own. */
  datatype Entry = Hit(tree: RepoTree) | Joined(task: nat) | Owns(task: nat)

  /** The ordering and the mapping of an ordered dictionary have the same keys. */
  ghost predicate Listed(order: seq<Key>, trees: map<Key, RepoTree>) {
    (forall k | k in order :: k in trees) && (forall k | k in trees :: k in order)
  }

  /** Every tree kept is the one a direct fetch gives, and its key has no fetch in flight. */
  ghost predicate Sound(trees: map<Key, RepoTree>, direct: Key -> RepoTree, inflight: map<Key, nat>) {
    forall k | k in trees :: trees[k] == direct(k) && k !in inflight
  }

  /** The same entries, or fewer. */
  ghost predicate Within(few: map<Key, RepoTree>, many: map<Key, RepoTree>) {
    forall k | k in few :: k in many && few[k] == many[k]
  }

  lemma FewerStaySound(few: map<Key, RepoTree>, many: map<Key, RepoTree>, direct: Key -> RepoTree,
                       inflight: map<Key, nat>)
    requires Within(few, many) && Sound(many, direct, inflight)
    ensures Sound(few, direct, inflight)
  {
  }

  /** The log with a hit, and with an insertion. */
  lemma LogKnown(log: seq<Key>, order: seq<Key>, k: Key)
    requires order == Suffix(Recency(log), MAX_ENTRIES) && Unique(order) && k in order
    ensures Without(order, k) + [k] == Suffix(Recency(log + [k]), MAX_ENTRIES)
    ensures Unique(Without(order, k) + [k])
  {
    assert (log + [k])[..|log|] == log;
    RecencyIsUnique(log);
    TouchKnown(Recency(log), MAX_ENTRIES, k);
    WithoutUnique(order, k);
    UniqueAppend(Without(order, k), k);
  }

  lemma LogNew(log: seq<Key>, order: seq<Key>, k: Key)
    requires order == Suffix(Recency(log), MAX_ENTRIES) && Unique(order) && k !in order
    ensures Suffix(order + [k], MAX_ENTRIES) == Suffix(Recency(log + [k]), MAX_ENTRIES)
    ensures Unique(order + [k])
  {
    assert (log + [k])[..|log|] == log;
    RecencyIsUnique(log);
    TouchNew(Recency(log), MAX_ENTRIES, k);
    UniqueAppend(order, k);
  }

  /** What a hit answers a clean request, in a cache whose fetches give filed trees. */
  lemma HitIsTheRequestedTree(cache: Cache, fetch: Request -> RepoTree, r: Request)
    requires cache.Valid() && (forall k :: cache.direct(k) == Filed(fetch, k))
    requires FetchesAlike(fetch) && Clean(r.limits.exclude) && KeyOf(r) in cache.trees
    ensures cache.trees[KeyOf(r)] == fetch(r)
  {
    CleanRequestsGetTheirTree(fetch, r);
  }

  /** What is kept, at any moment: the last four keys in the order of recency, or all of them if they are fewer. */
  lemma HoldsTheLastFour(cache: Cache)
    requires cache.Valid()
    ensures var recent := Recency(cache.touched);
            && |cache.order| == (if |recent| < 4 then |recent| else 4)
            && (forall i | 0 <= i < |cache.order| :: cache.order[i] == recent[|recent| - |cache.order| + i])
            && forall k :: k in cache.trees <==> k in cache.order
  {
  }

  class Cache {
    /** What fetching a key directly gives, when it succeeds: a commit is content-addressed. */
    const direct: Key -> RepoTree

    var order: seq<Key>
    var trees: map<Key, RepoTree>
    var inflight: map<Key, nat>

    // The event loop's tasks, by number, with the key each was started for.
    var tasks: seq<Fetch>
    var wanted: seq<Key>

    /** Those whose owner has not resumed yet, by number. */
    ghost var awaiting: set<nat>

    /** The keys of the hits and the insertions so far. */
    ghost var touched: seq<Key>

    constructor (direct: Key -> RepoTree)
      ensures Valid() && this.direct == direct && touched == [] && awaiting == {} && inflight == map[] && trees == map[]
    {
      this.direct := direct;
      order, trees, inflight := [], map[], map[];
      tasks, wanted, awaiting, touched := [], [], {}, [];
    }

    /** Every task fetches its key, and a finished one got what a direct fetch gives. */
    ghost predicate TasksOk()
      reads this`tasks, this`wanted
    {
      && |wanted| == |tasks|
      && forall t | 0 <= t < |tasks| && tasks[t].Fetched? :: tasks[t].tree == direct(wanted[t])
    }

    /** A running fetch is the registered one of its key, so no key has two. */
    ghost predicate SingleFlight()
      reads this`tasks, this`wanted, this`inflight, this`awaiting
      requires |wanted| == |tasks|
    {
      && (forall k | k in inflight :: inflight[k] < |tasks| && wanted[inflight[k]] == k)
      && (forall t | t in awaiting :: t < |tasks| && wanted[t] in inflight && inflight[wanted[t]] == t)
      && (forall t | 0 <= t < |tasks| && tasks[t] == Fetching :: t in awaiting)
    }

    /** The cache holds the trees of the last four distinct keys touched, in that order. */
    ghost predicate Recent()
      reads this`order, this`trees, this`touched
    {
      && Unique(order) && Listed(order, trees)
      && order == Suffix(Recency(touched), MAX_ENTRIES)
    }

    ghost predicate Valid()
      reads this
    {
      TasksOk() && SingleFlight() && Sound(trees, direct, inflight) && Recent()
    }

    /** `cached`, up to its first `await` or its return. */
    method Ask(k: Key) returns (r: Entry)
      requires Valid()
      modifies this
      ensures Valid()
      ensures old(k in trees) ==> r == Hit(direct(k)) && touched == old(touched) + [k] && tasks == old(tasks)
      ensures old(k !in trees && k in inflight) ==> r == Joined(old(inflight)[k]) && tasks == old(tasks)
      ensures old(k !in trees && k !in inflight) ==>
                r == Owns(|old(tasks)|) && tasks == old(tasks) + [Fetching] && wanted == old(wanted) + [k]
      ensures old(k !in trees) ==> touched == old(touched)
      ensures trees == old(trees) && awaiting == old(awaiting) + (if r.Owns? then {r.task} else {})
      ensures inflight == if r.Owns? then old(inflight)[k := r.task] else old(inflight)
    {
      if k in trees {
        Touch(k);
        r := Hit(trees[k]);
      } else if k in inflight {
        r := Joined(inflight[k]);
      } else {
        r := Owns(|tasks|);
        Start(k);
      }
    }

    /** `move_to_end`. */
    method Touch(k: Key)
      requires Recent() && k in trees
      modifies this`order, this`touched
      ensures Recent() && touched == old(touched) + [k]
    {
      LogKnown(touched, order, k);
      order := Without(order, k) + [k];
      touched := touched + [k];
    }

    method Start(k: Key)
      requires TasksOk() && SingleFlight() && k !in inflight
      modifies this`inflight, this`awaiting, this`tasks, this`wanted
      ensures TasksOk() && SingleFlight()
      ensures inflight == old(inflight)[k := |old(tasks)|] && awaiting == old(awaiting) + {|old(tasks)|}
      ensures tasks == old(tasks) + [Fetching] && wanted == old(wanted) + [k]
    {
      inflight := inflight[k := |tasks|];
      awaiting := awaiting + {|tasks|};
      tasks, wanted := tasks + [Fetching], wanted + [k];
    }

    /** The environment finishes a fetch: it fails, or gives what a direct fetch gives. */
    method Finish(task: nat, failed: bool)
      requires Valid() && task < |tasks| && tasks[task] == Fetching
      modifies this`tasks
      ensures Valid()
      ensures tasks == old(tasks)[task := if failed then FetchFailed else Fetched(direct(wanted[task]))]
    {
      tasks := tasks[task := if failed then FetchFailed else Fetched(direct(wanted[task]))];
    }

    /** A caller that joined resumes once the fetch is done; a cancelled one simply never does. */
    method JoinerResumes(k: Key, task: nat) returns (r: Option<RepoTree>)
      requires Valid() && task < |tasks| && wanted[task] == k && tasks[task] != Fetching
      ensures r == if tasks[task].Fetched? then Some(direct(k)) else None
    {
      r := if tasks[task].Fetched? then Some(tasks[task].tree) else None;
    }

    /** The owner resumes: the registration is cleared either way, and only a success is kept. */
    method OwnerResumes(k: Key, task: nat) returns (r: Option<RepoTree>)
      requires Valid() && task < |tasks| && wanted[task] == k && tasks[task] != Fetching
      requires task in awaiting
      modifies this
      ensures Valid() && tasks == old(tasks) && wanted == old(wanted) && awaiting == old(awaiting) - {task}
      ensures inflight == old(inflight) - {k}
      ensures r == if old(tasks)[task].Fetched? then Some(direct(k)) else None
      ensures r.None? ==> trees == old(trees) && order == old(order) && touched == old(touched)
      ensures r.Some? ==> k in trees && touched == old(touched) + [k]
    {
      inflight, awaiting := inflight - {k}, awaiting - {task};
      if tasks[task] == FetchFailed { return None; }
      r := Some(tasks[task].tree);
      Keep(k, tasks[task].tree);
    }

    /** The insertion and the eviction loop. */
    method Keep(k: Key, tree: RepoTree)
      requires Recent() && Sound(trees, direct, inflight) && k !in trees && k !in inflight && tree == direct(k)
      modifies this`order, this`trees, this`touched
      ensures Recent() && Sound(trees, direct, inflight) && k in trees && touched == old(touched) + [k]
    {
      LogNew(touched, order, k);
      order, trees := order + [k], trees[k := tree];
      ghost var grown := trees;
      assert Listed(order, trees);
      assert Sound(grown, direct, inflight);
      Evict(k);
      touched := touched + [k];
      FewerStaySound(trees, grown, direct, inflight);
    }

    method Evict(ghost newest: Key)
      requires Unique(order) && Listed(order, trees) && order != [] && order[|order| - 1] == newest
      modifies this`order, this`trees
      ensures order == Suffix(old(order), MAX_ENTRIES) && newest in order
      ensures Unique(order) && Listed(order, trees)
      ensures Within(trees, old(trees))
    {
      while |order| > MAX_ENTRIES
        invariant order != [] && order[|order| - 1] == newest
        invariant Suffix(order, MAX_ENTRIES) == Suffix(old(order), MAX_ENTRIES)
        invariant Unique(order) && Listed(order, trees) && Within(trees, old(trees))
        decreases |order|
      {
        PopOldest();
      }
    }

    /** `popitem(last=False)`. */
    method PopOldest()
      requires Unique(order) && Listed(order, trees) && order != []
      modifies this`order, this`trees
      ensures order == old(order)[1..] && Within(trees, old(trees))
      ensures Unique(order) && Listed(order, trees)
    {
      var oldest := order[0];
      assert order == [oldest] + order[1..];
      UniqueSplits([oldest], order[1..]);
      order, trees := order[1..], trees - {oldest};
    }
  }
}
