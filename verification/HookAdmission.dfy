/**
 Admission of service hook deliveries (`engine/api/main.py`): the id a run is launched under, reading the
 revision back out of it, and what keeps a replayed delivery from starting a second run. Each method of
 `Admission` is one step between two `await`s, so every interleaving of deliveries is a sequence of them.
 */
module HookAdmission {
  import opened Options
  import opened Text

  // ---------------------------------------------------------------- workflow ids

  predicate HexOrDash(c: char) {
    '0' <= c <= '9' || 'a' <= c <= 'f' || c == '-'
  }

  /** The text form of an application's or a run's UUID. */
  type Uuid = s: string | |s| == 36 && forall i | 0 <= i < |s| :: HexOrDash(s[i]) witness seq(36, _ => '0')

  /** A work item at a revision, in an application. */
  datatype Start = Start(app: Uuid, item: string, revision: nat)

  const PREFIX: string := "kuwarden-ado-"

  function HookId(s: Start): string {
    PREFIX + s.app + "-" + s.item + "-r" + Decimal(s.revision)
  }

  function ManualId(run: Uuid): string {
    "kuwarden-" + run
  }

  predicate AllDigits(s: string) {
    forall c | c in s :: Digit(c)
  }

  /** How many digits the text ends in. */
  function TrailingDigits(s: string): (n: nat)
    ensures n <= |s| && AllDigits(s[|s| - n..]) && (n < |s| ==> !Digit(s[|s| - n - 1]))
  {
    if s == "" || !Digit(s[|s| - 1]) then 0
    else
      var n := TrailingDigits(s[..|s| - 1]);
      assert s[|s| - n - 1..] == s[..|s| - 1][|s| - 1 - n..] + [s[|s| - 1]];
      n + 1
  }

  /** `re.fullmatch(r"kuwarden-ado-.+-r(\d+)", id)`, and the number in the group. */
  function RevisionOf(id: string): Option<nat> {
    var n := |id| - TrailingDigits(id);
    if n == |id| || n < |PREFIX| + 3 || !StartsWith(id, PREFIX) || id[n - 2..n] != "-r" then None
    else if '\n' in id[|PREFIX|..n - 2] then None
    else Some(Value(id[n..]))
  }

  /** The expression matches: a nonempty stretch without newlines, then `-r` and digits. */
  predicate Fullmatch(id: string, x: string, digits: string) {
    id == PREFIX + x + "-r" + digits && x != "" && '\n' !in x && digits != "" && AllDigits(digits)
  }

  lemma {:induction false} DigitsEnd(before: string, digits: string)
    requires AllDigits(digits) && before != "" && !Digit(before[|before| - 1])
    ensures TrailingDigits(before + digits) == |digits|
  {
    if digits == "" {
      assert before + digits == before;
    } else {
      var s, front := before + digits, digits[..|digits| - 1];
      assert digits == front + [digits[|digits| - 1]];
      assert s[..|s| - 1] == before + front && s[|s| - 1] == digits[|digits| - 1];
      DigitsEnd(before, front);
    }
  }

  lemma FourParts(a: string, x: string, m: string, d: string)
    ensures var id := a + x + m + d;
            && id[..|a|] == a && id[|a|..|a| + |x|] == x
            && id[|a| + |x|..|a| + |x| + |m|] == m && id[|a| + |x| + |m|..] == d
  {
  }

  /** The group is the same however the expression matches, and it is found if there is one. */
  lemma RevisionIsTheGroup(id: string, x: string, digits: string)
    requires Fullmatch(id, x, digits)
    ensures RevisionOf(id) == Some(Value(digits))
  {
    DigitsEnd(PREFIX + x + "-r", digits);
    FourParts(PREFIX, x, "-r", digits);
    assert |id| - TrailingDigits(id) == |PREFIX| + |x| + 2;
  }

  lemma RevisionOfMeaning(id: string)
    ensures RevisionOf(id).Some? <==> exists x, digits :: Fullmatch(id, x, digits)
  {
    if RevisionOf(id).Some? {
      var n := |id| - TrailingDigits(id);
      assert id == PREFIX + id[|PREFIX|..n - 2] + "-r" + id[n..];
      assert Fullmatch(id, id[|PREFIX|..n - 2], id[n..]);
    }
    if x, digits :| Fullmatch(id, x, digits) { RevisionIsTheGroup(id, x, digits); }
  }

  /** Reading the revision back out of a hook's id inverts writing it, exactly for items without a newline. */
  lemma RevisionRoundTrip(s: Start)
    ensures RevisionOf(HookId(s)) == if '\n' in s.item then None else Some(s.revision)
  {
    var x, digits := s.app + "-" + s.item, Decimal(s.revision);
    var before := PREFIX + x + "-r";
    assert HookId(s) == before + digits;
    if '\n' in s.item {
      DigitsEnd(before, digits);
      assert HookId(s)[|PREFIX|..|before| - 2] == x;
      assert '\n' in x;
    } else {
      assert forall i | 0 <= i < |s.app| :: HexOrDash(s.app[i]);
      assert Fullmatch(HookId(s), x, digits);
      RevisionIsTheGroup(HookId(s), x, digits);
      ValueOfDecimal(s.revision);
    }
  }

  /** Ids tell applications, items and revisions apart. */
  lemma HookIdsAreInjective(s: Start, t: Start)
    requires HookId(s) == HookId(t)
    ensures s == t
  {
    var a, b := PREFIX + s.app + "-" + s.item + "-r", PREFIX + t.app + "-" + t.item + "-r";
    DigitsEnd(a, Decimal(s.revision));
    DigitsEnd(b, Decimal(t.revision));
    var id := HookId(s);
    assert id == a + Decimal(s.revision) && id == b + Decimal(t.revision);
    assert |a| == |b| && id[..|a|] == a && id[..|b|] == b;
    assert id[|a|..] == Decimal(s.revision) && id[|b|..] == Decimal(t.revision);
    DecimalIsInjective(s.revision, t.revision);
    var p := |PREFIX|;
    assert s.app == a[p..p + 36] && t.app == b[p..p + 36];
    assert s.item == a[p + 37..|a| - 2] && t.item == b[p + 37..|b| - 2];
  }

  /** A run started by hand is never taken for a hook's. */
  lemma ManualIdsAreIgnored(run: Uuid)
    ensures RevisionOf(ManualId(run)) == None && forall s :: HookId(s) != ManualId(run)
  {
    var id := ManualId(run);
    assert id[11] == run[2] && HexOrDash(run[2]);
    assert PREFIX[11] == 'o';
    assert id[..|PREFIX|][11] == id[11];
    forall s ensures HookId(s) != id { assert StartsWith(HookId(s), PREFIX); }
  }

  // ---------------------------------------------------------------- what the two tables show

  /** A row of `trigger_deliveries`, and a row of `flow_runs`. */
  datatype Delivery = Delivery(start: Start, started: bool)
  datatype RunRow = RunRow(app: Uuid, ticket: string, workflowId: string)

  /** A revision of the item that one of the tables shows as run. */
  predicate Shown(rows: seq<Delivery>, runs: seq<RunRow>, s: Start) {
    || Delivery(s, true) in rows
    || HasRun(runs, s)
  }

  predicate HasRun(runs: seq<RunRow>, s: Start) {
    exists run | run in runs :: RunOf(run, s)
  }

  predicate RunOf(run: RunRow, s: Start) {
    run.app == s.app && run.ticket == s.item && RevisionOf(run.workflowId) == Some(s.revision)
  }

  function Larger(a: Option<nat>, b: Option<nat>): Option<nat> {
    if a.None? then b else if b.None? then a else if a.value >= b.value then a else b
  }

  /** `SELECT max(revision) ... AND started`. */
  function HighestDelivered(rows: seq<Delivery>, app: Uuid, item: string): Option<nat> {
    if rows == [] then None
    else
      var rest, row := HighestDelivered(rows[..|rows| - 1], app, item), rows[|rows| - 1];
      if row.started && row.start.app == app && row.start.item == item then Larger(rest, Some(row.start.revision))
      else rest
  }

  /** The highest revision among the hook-started runs of the item. */
  function HighestRun(runs: seq<RunRow>, app: Uuid, item: string): Option<nat> {
    if runs == [] then None
    else
      var rest, run := HighestRun(runs[..|runs| - 1], app, item), runs[|runs| - 1];
      if run.app == app && run.ticket == item then Larger(rest, RevisionOf(run.workflowId)) else rest
  }

  /** `_superseded_by`: the highest revision shown, if it is not below this one. */
  function SupersededBy(rows: seq<Delivery>, runs: seq<RunRow>, s: Start): Option<nat> {
    var highest := Larger(HighestRun(runs, s.app, s.item), HighestDelivered(rows, s.app, s.item));
    if highest.Some? && highest.value >= s.revision then highest else None
  }

  lemma {:induction false} HighestDeliveredIsMax(rows: seq<Delivery>, s: Start)
    ensures var h := HighestDelivered(rows, s.app, s.item);
            && (h.Some? ==> Delivery(s.(revision := h.value), true) in rows)
            && (Delivery(s, true) in rows ==> h.Some? && s.revision <= h.value)
  {
    if rows != [] {
      HighestDeliveredIsMax(rows[..|rows| - 1], s);
      assert rows == rows[..|rows| - 1] + [rows[|rows| - 1]];
    }
  }

  lemma HasRunLast(runs: seq<RunRow>, s: Start)
    requires runs != []
    ensures HasRun(runs, s) <==> HasRun(runs[..|runs| - 1], s) || RunOf(runs[|runs| - 1], s)
  {
    assert runs == runs[..|runs| - 1] + [runs[|runs| - 1]];
  }

  lemma {:induction false} HighestRunIsARun(runs: seq<RunRow>, s: Start)
    ensures var h := HighestRun(runs, s.app, s.item);
            h.Some? ==> HasRun(runs, s.(revision := h.value))
  {
    var h := HighestRun(runs, s.app, s.item);
    if runs != [] && h.Some? {
      HighestRunIsARun(runs[..|runs| - 1], s);
      HasRunLast(runs, s.(revision := h.value));
    }
  }

  lemma {:induction false} HighestRunIsHighest(runs: seq<RunRow>, s: Start)
    requires HasRun(runs, s)
    ensures var h := HighestRun(runs, s.app, s.item); h.Some? && s.revision <= h.value
  {
    HasRunLast(runs, s);
    if HasRun(runs[..|runs| - 1], s) { HighestRunIsHighest(runs[..|runs| - 1], s); }
  }

  /** A delivery is superseded exactly when one of the tables shows its revision or a newer one of its item. */
  lemma SupersededMeaning(rows: seq<Delivery>, runs: seq<RunRow>, s: Start)
    ensures SupersededBy(rows, runs, s).Some? <==>
            exists r: nat :: r >= s.revision && Shown(rows, runs, s.(revision := r))
  {
    var h := SupersededBy(rows, runs, s);
    HighestDeliveredIsMax(rows, s);
    HighestRunIsARun(runs, s);
    if h.Some? {
      assert Shown(rows, runs, s.(revision := h.value));
    }
    if r: nat :| r >= s.revision && Shown(rows, runs, s.(revision := r)) {
      HighestDeliveredIsMax(rows, s.(revision := r));
      if HasRun(runs, s.(revision := r)) { HighestRunIsHighest(runs, s.(revision := r)); }
    }
  }

  // ---------------------------------------------------------------- admission

  predicate SameItem(s: Start, t: Start) {
    s.app == t.app && s.item == t.item
  }

  /** The revisions started for an item, in the order they were. */
  predicate Newer(started: seq<Start>, i: nat, j: nat)
    requires i < j < |started|
  {
    SameItem(started[i], started[j]) ==> started[i].revision < started[j].revision
  }

  predicate StrictlyIncreasing(started: seq<Start>) {
    forall i, j | 0 <= i < j < |started| :: Newer(started, i, j)
  }

  predicate NewerThanAll(started: seq<Start>, s: Start) {
    forall t | t in started && SameItem(s, t) :: t.revision < s.revision
  }

  predicate Distinct(started: seq<Start>) {
    forall i, j | 0 <= i < j < |started| :: started[i] != started[j]
  }

  /** Every start of the item is shown by at least one table. */
  predicate AllShown(rows: seq<Delivery>, runs: seq<RunRow>, started: seq<Start>, s: Start) {
    forall t | t in started && SameItem(s, t) :: Shown(rows, runs, t)
  }

  // ---------------------------------------------------------------- whole schedules

  /** What can happen between deliveries and what a delivery is: any run's row may be written at any time, or never. */
  datatype Move =
    | Arrives(start: Start, lost: bool)
    | RunWritten(start: Start)
    | ByHand(app: Uuid, ticket: string, run: Uuid)

  datatype Tables = Tables(rows: seq<Delivery>, runs: seq<RunRow>, started: seq<Start>)

  function RowOf(s: Start): RunRow {
    RunRow(s.app, s.item, HookId(s))
  }

  function Moved(t: Tables, m: Move): Tables {
    match m
    case Arrives(s, lost) =>
      var ok := SupersededBy(t.rows, t.runs, s).None? && s !in t.started;
      t.(rows := if lost then t.rows else t.rows + [Delivery(s, ok)],
         started := if ok then t.started + [s] else t.started)
    case RunWritten(s) => if s in t.started then t.(runs := t.runs + [RowOf(s)]) else t
    case ByHand(app, ticket, run) => t.(runs := t.runs + [RunRow(app, ticket, ManualId(run))])
  }

  function MovedAll(t: Tables, moves: seq<Move>): Tables {
    if moves == [] then t else Moved(MovedAll(t, moves[..|moves| - 1]), moves[|moves| - 1])
  }

  /** When a delivery arrives, every earlier start of its item is shown by one of the tables. */
  predicate SeenAt(t: Tables, moves: seq<Move>, i: nat)
    requires i < |moves|
  {
    var now := MovedAll(t, moves[..i]);
    moves[i].Arrives? ==> AllShown(now.rows, now.runs, now.started, moves[i].start)
  }

  predicate SeenThroughout(t: Tables, moves: seq<Move>) {
    forall i | 0 <= i < |moves| :: SeenAt(t, moves, i)
  }

  predicate NothingLost(moves: seq<Move>) {
    forall i | 0 <= i < |moves| && moves[i].Arrives? :: !moves[i].lost
  }

  predicate EveryShown(t: Tables) {
    forall s | s in t.started :: Shown(t.rows, t.runs, s)
  }

  lemma ShownStays(rows: seq<Delivery>, runs: seq<RunRow>, rows2: seq<Delivery>, runs2: seq<RunRow>, s: Start)
    requires rows <= rows2 && runs <= runs2 && Shown(rows, runs, s)
    ensures Shown(rows2, runs2, s)
  {
    if HasRun(runs, s) {
      var run :| run in runs && RunOf(run, s);
      assert run in runs2;
    }
  }

  lemma {:induction false} NothingLostIsShown(t: Tables, moves: seq<Move>)
    requires EveryShown(t) && NothingLost(moves)
    ensures EveryShown(MovedAll(t, moves))
  {
    if moves != [] {
      var before, after := MovedAll(t, moves[..|moves| - 1]), MovedAll(t, moves);
      NothingLostIsShown(t, moves[..|moves| - 1]);
      forall s | s in after.started ensures Shown(after.rows, after.runs, s) {
        if s in before.started { ShownStays(before.rows, before.runs, after.rows, after.runs, s); }
      }
    }
  }

  /** For one, when no delivery's own record is lost, whatever becomes of the runs' rows. */
  lemma NothingLostIsSeen(t: Tables, moves: seq<Move>)
    requires EveryShown(t) && NothingLost(moves)
    ensures SeenThroughout(t, moves)
  {
    forall i | 0 <= i < |moves| ensures SeenAt(t, moves, i) { NothingLostIsShown(t, moves[..i]); }
  }

  class Admission {
    // `trigger_deliveries` and `flow_runs`, and the ids the workflow server has seen.
    var rows: seq<Delivery>
    var runs: seq<RunRow>
    var ids: set<string>

    /** The runs started by the hook, in order. */
    ghost var started: seq<Start>

    constructor ()
      ensures Valid() && started == [] && rows == [] && runs == []
    {
      rows, runs, ids, started := [], [], {}, [];
    }

    /** The tables show only what was started, and an id is taken exactly when its start happened. */
    ghost predicate Valid()
      reads this
    {
      && (forall s :: Delivery(s, true) in rows ==> s in started)
      && (forall s :: HasRun(runs, s) ==> s in started)
      && (forall s :: HookId(s) in ids <==> s in started)
      && Distinct(started)
    }

    /** `start_workflow` with `REJECT_DUPLICATE`: the server takes an id once, for good. */
    method Launch(s: Start) returns (ok: bool)
      requires Valid()
      modifies this`ids, this`started
      ensures Valid()
      ensures ok <==> s !in old(started)
      ensures started == if ok then old(started) + [s] else old(started)
    {
      ok := HookId(s) !in ids;
      if ok {
        forall t | HookId(t) == HookId(s) ensures t == s { HookIdsAreInjective(s, t); }
        ids := ids + {HookId(s)};
        started := started + [s];
      }
    }

    /** A person starts a run; the server's ids grow, the hook's starts do not. */
    method LaunchByHand(run: Uuid)
      requires Valid()
      modifies this`ids
      ensures Valid() && ids == old(ids) + {ManualId(run)}
    {
      ManualIdsAreIgnored(run);
      ids := ids + {ManualId(run)};
    }

    /** Its row is in the table as well, and shows no revision. */
    method RunByHandRecorded(app: Uuid, ticket: string, run: Uuid)
      requires Valid()
      modifies this`runs
      ensures Valid() && runs == old(runs) + [RunRow(app, ticket, ManualId(run))]
    {
      var row := RunRow(app, ticket, ManualId(run));
      ManualIdsAreIgnored(run);
      forall t | HasRun(runs + [row], t) ensures t in started {
        HasRunLast(runs + [row], t);
        assert (runs + [row])[..|runs|] == runs;
      }
      runs := runs + [row];
    }

    /** `_delivered`; the insert may be lost. */
    method Delivered(s: Start, isStart: bool, lost: bool)
      requires Valid() && (isStart ==> s in started)
      modifies this`rows
      ensures Valid() && rows == if lost then old(rows) else old(rows) + [Delivery(s, isStart)]
    {
      if !lost { rows := rows + [Delivery(s, isStart)]; }
    }

    /** The run's own row, written by its first activity at any later time, or never. */
    method RunRecorded(s: Start)
      requires Valid() && s in started
      modifies this`runs
      ensures Valid() && runs == old(runs) + [RunRow(s.app, s.item, HookId(s))]
    {
      var row := RunRow(s.app, s.item, HookId(s));
      RevisionRoundTrip(s);
      forall t | HasRun(runs + [row], t) ensures t in started {
        HasRunLast(runs + [row], t);
        assert (runs + [row])[..|runs|] == runs;
      }
      runs := runs + [row];
    }

    /**
     One whole delivery, with no other in between: check, launch, record. If every earlier start of the
     item is shown by a table, it starts a run exactly when its revision is newer than all of them.
     */
    method Deliver(s: Start, lost: bool) returns (ok: bool)
      requires Valid()
      modifies this`rows, this`ids, this`started
      ensures Valid()
      ensures ok <==> SupersededBy(old(rows), runs, s).None? && s !in old(started)
      ensures started == if ok then old(started) + [s] else old(started)
      ensures old(AllShown(rows, runs, started, s)) ==> (ok <==> NewerThanAll(old(started), s))
      ensures old(AllShown(rows, runs, started, s)) && StrictlyIncreasing(old(started)) ==> StrictlyIncreasing(started)
      ensures rows == if lost then old(rows) else old(rows) + [Delivery(s, ok)]
    {
      ghost var before := started;
      SupersededExactly(rows, runs, started, s);
      if SupersededBy(rows, runs, s).Some? {
        Delivered(s, false, lost);
        return false;
      }
      ok := Launch(s);
      Delivered(s, ok, lost);
      OneMoreStart(before, s);
    }

    ghost function Now(): Tables
      reads this
    {
      Tables(rows, runs, started)
    }

    /** One move of a schedule. */
    method Make(m: Move)
      requires Valid()
      modifies this`rows, this`ids, this`started, this`runs
      ensures Valid() && Now() == Moved(old(Now()), m) && old(started) <= started
      ensures m.Arrives? ==> !NewerThanAll(started, m.start)
      ensures (m.Arrives? ==> old(AllShown(rows, runs, started, m.start))) && StrictlyIncreasing(old(started)) ==>
                StrictlyIncreasing(started)
    {
      match m
      case Arrives(s, lost) =>
        SupersededExactly(rows, runs, started, s);
        var ok := Deliver(s, lost);
      case RunWritten(s) =>
        if HookId(s) in ids { RunRecorded(s); }
      case ByHand(app, ticket, run) =>
        LaunchByHand(run);
        RunByHandRecorded(app, ticket, run);
    }

    /**
     Any schedule of deliveries, one after the other, with any runs' rows written between them. If every
     delivery finds each earlier start of its item in one of the tables, started revisions strictly increase
     whatever is replayed in whatever order; and no delivered revision is left newer than all started ones.
     */
    method DeliverAll(moves: seq<Move>)
      requires Valid()
      modifies this`rows, this`ids, this`started, this`runs
      ensures Valid() && Now() == MovedAll(old(Now()), moves) && old(started) <= started
      ensures StrictlyIncreasing(old(started)) && SeenThroughout(old(Now()), moves) ==> StrictlyIncreasing(started)
      ensures NoneIsLeft(started, moves, |moves|)
    {
      ghost var t := Now();
      for i := 0 to |moves|
        invariant Valid() && Now() == MovedAll(t, moves[..i]) && old(started) <= started
        invariant StrictlyIncreasing(old(started)) && SeenThroughout(t, moves) ==> StrictlyIncreasing(started)
        invariant NoneIsLeft(started, moves, i)
      {
        ghost var before := started;
        assert SeenThroughout(t, moves) ==> SeenAt(t, moves, i);
        assert moves[..i + 1][..i] == moves[..i];
        Make(moves[i]);
        OneMoreArrived(before, started, moves, i);
      }
      assert moves[..|moves|] == moves;
    }
  }

  /** None of the first `n` revisions that arrived is newer than all started ones. */
  predicate NoneIsLeft(started: seq<Start>, moves: seq<Move>, n: nat)
    requires n <= |moves|
  {
    forall i | 0 <= i < n && moves[i].Arrives? :: !NewerThanAll(started, moves[i].start)
  }

  lemma OneMoreArrived(started: seq<Start>, more: seq<Start>, moves: seq<Move>, n: nat)
    requires started <= more && n < |moves| && NoneIsLeft(started, moves, n)
    requires moves[n].Arrives? ==> !NewerThanAll(more, moves[n].start)
    ensures NoneIsLeft(more, moves, n + 1)
  {
    forall i | 0 <= i < n && moves[i].Arrives? ensures !NewerThanAll(more, moves[i].start) {
      StillNotNewer(started, more, moves[i].start);
    }
  }

  lemma StillNotNewer(started: seq<Start>, more: seq<Start>, s: Start)
    requires started <= more && !NewerThanAll(started, s)
    ensures !NewerThanAll(more, s)
  {
    var t :| t in started && SameItem(s, t) && t.revision >= s.revision;
    assert t in more;
  }

  /** The guard sees the newest start of an item whenever every start of it is shown. */
  lemma SupersededExactly(rows: seq<Delivery>, runs: seq<RunRow>, started: seq<Start>, s: Start)
    requires forall t :: Delivery(t, true) in rows ==> t in started
    requires forall t :: HasRun(runs, t) ==> t in started
    ensures AllShown(rows, runs, started, s) ==> (SupersededBy(rows, runs, s).None? <==> NewerThanAll(started, s))
    ensures SupersededBy(rows, runs, s).Some? ==> !NewerThanAll(started, s)
  {
    SupersededMeaning(rows, runs, s);
    if AllShown(rows, runs, started, s) && !NewerThanAll(started, s) {
      var t :| t in started && SameItem(s, t) && t.revision >= s.revision;
      assert s.(revision := t.revision) == t;
    }
  }

  lemma OneMoreStart(started: seq<Start>, s: Start)
    ensures StrictlyIncreasing(started) && NewerThanAll(started, s) ==> StrictlyIncreasing(started + [s])
    ensures NewerThanAll(started, s) ==> s !in started
  {
    if StrictlyIncreasing(started) && NewerThanAll(started, s) {
      var all := started + [s];
      forall i, j | 0 <= i < j < |all| ensures Newer(all, i, j) {
        if j < |started| { assert Newer(started, i, j); } else { assert all[i] in started; }
      }
    }
  }
}
