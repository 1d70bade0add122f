/**
 The audit activities (`engine/activities/audit.py`). An activity is delivered at least once, in an
 order the flow does not control, so what matters is what any mixture of repeats leaves in the tables.
 */
module AuditTables {
  import opened Options
  import opened FlowModel
  import opened AuditTrail

  /** `flow_events`, unique on run and sequence number. */
  type EventTable = map<(string, nat), Event>

  /** Insert, or leave the row that is there. */
  function Insert(t: EventTable, run: string, e: Event): EventTable {
    if (run, e.seqNo) in t then t else t[(run, e.seqNo) := e]
  }

  function InsertAll(t: EventTable, run: string, es: seq<Event>): EventTable {
    if es == [] then t else Insert(InsertAll(t, run, es[..|es| - 1]), run, es[|es| - 1])
  }

  /** The row under one key of the run, after any deliveries of rows of the trail. */
  lemma {:induction false} RowAfter(t: EventTable, run: string, es: seq<Event>, trail: seq<Event>, n: nat)
    requires Numbered(trail) && (forall e | e in es :: e in trail) && (run, n) !in t
    ensures var r := InsertAll(t, run, es);
            if 1 <= n <= |trail| && trail[n - 1] in es then (run, n) in r && r[(run, n)] == trail[n - 1]
            else (run, n) !in r
  {
    if es != [] {
      var front, e := es[..|es| - 1], es[|es| - 1];
      RowAfter(t, run, front, trail, n);
      assert e in trail;
      var i :| 0 <= i < |trail| && trail[i] == e;
      assert NumberedAt(trail, i);
      assert forall x | x in es :: x in front || x == e;
      if 1 <= n <= |trail| { assert NumberedAt(trail, n - 1); }
    }
  }

  lemma {:induction false} OtherRowsStay(t: EventTable, run: string, es: seq<Event>, k: (string, nat))
    requires k.0 != run
    ensures k in InsertAll(t, run, es) <==> k in t
    ensures k in t ==> InsertAll(t, run, es)[k] == t[k]
  {
    if es != [] { OtherRowsStay(t, run, es[..|es| - 1], k); }
  }

  /**
   However often and in whatever order the rows of a trail are delivered, the table ends up the same
   as if each had been delivered once; rows of other runs are untouched.
   */
  lemma DuplicatesLeaveTheTrail(t: EventTable, run: string, deliveries: seq<Event>, trail: seq<Event>)
    requires Numbered(trail)
    requires forall k | k in t :: k.0 != run
    requires forall e | e in deliveries :: e in trail
    requires forall e | e in trail :: e in deliveries
    ensures InsertAll(t, run, deliveries) == InsertAll(t, run, trail)
    ensures forall k | k in t :: k in InsertAll(t, run, trail) && InsertAll(t, run, trail)[k] == t[k]
  {
    var a, b := InsertAll(t, run, deliveries), InsertAll(t, run, trail);
    forall k: (string, nat)
      ensures k in a <==> k in b
      ensures k in a ==> a[k] == b[k]
      ensures k in t ==> k in b && b[k] == t[k]
    {
      if k.0 == run {
        RowAfter(t, run, deliveries, trail, k.1);
        RowAfter(t, run, trail, trail, k.1);
      } else {
        OtherRowsStay(t, run, deliveries, k);
        OtherRowsStay(t, run, trail, k);
      }
    }
  }

  // ---------------------------------------------------------------- the run's own row

  /** A late status change, or the end of the run. */
  datatype StatusWrite = Changed(status: Status) | Ended(status: Status)

  predicate Open(s: Status) {
    s == Running || s == Suspended
  }

  function Write(s: Status, w: StatusWrite): Status {
    match w
    case Changed(to) => if Open(s) then to else s
    case Ended(to) => to
  }

  function WriteAll(s: Status, ws: seq<StatusWrite>): Status {
    if ws == [] then s else Write(WriteAll(s, ws[..|ws| - 1]), ws[|ws| - 1])
  }

  /** The end that was written last, if any. */
  function LastEnd(ws: seq<StatusWrite>): Option<Status> {
    if ws == [] then None
    else if ws[|ws| - 1].Ended? then Some(ws[|ws| - 1].status)
    else LastEnd(ws[..|ws| - 1])
  }

  /**
   Once an end has been written, only ends count: late and duplicated status changes neither reopen
   the row nor alter it, whatever came before and however they are interleaved.
   */
  lemma {:induction false} EndedStaysEnded(s: Status, ws: seq<StatusWrite>)
    requires forall w | w in ws && w.Ended? :: !Open(w.status)
    requires LastEnd(ws).Some? || !Open(s)
    ensures WriteAll(s, ws) == if LastEnd(ws).Some? then LastEnd(ws).value else s
    ensures !Open(WriteAll(s, ws))
  {
    if ws != [] {
      var front, w := ws[..|ws| - 1], ws[|ws| - 1];
      if w.Changed? {
        EndedStaysEnded(s, front);
      } else {
        assert w in ws;
      }
    }
  }

  // ---------------------------------------------------------------- the index of changed files

  datatype FileRow = FileRow(added: nat, removed: nat, attempt: nat)

  /** `run_files` of one run, unique on the path. */
  type FileTable = map<string, FileRow>

  datatype Delivery = Delivery(attempt: nat, files: seq<FileChange>)

  function UpsertFiles(t: FileTable, attempt: nat, files: seq<FileChange>): FileTable {
    if files == [] then t
    else
      var last := files[|files| - 1];
      UpsertFiles(t, attempt, files[..|files| - 1])[last.path := FileRow(last.added, last.removed, attempt)]
  }

  function UpsertAll(t: FileTable, ds: seq<Delivery>): FileTable {
    if ds == [] then t
    else UpsertFiles(UpsertAll(t, ds[..|ds| - 1]), ds[|ds| - 1].attempt, ds[|ds| - 1].files)
  }

  /** What a delivery says of a path: its last entry for it, if it has one. */
  function EntryFor(files: seq<FileChange>, path: string): Option<FileChange> {
    if files == [] then None
    else if files[|files| - 1].path == path then Some(files[|files| - 1])
    else EntryFor(files[..|files| - 1], path)
  }

  predicate Touches(d: Delivery, path: string) {
    EntryFor(d.files, path).Some?
  }

  function RowFor(d: Delivery, path: string): FileRow
    requires Touches(d, path)
  {
    var f := EntryFor(d.files, path).value;
    FileRow(f.added, f.removed, d.attempt)
  }

  function LastTouch(ds: seq<Delivery>, path: string): (d: Option<Delivery>)
    ensures d.Some? ==> Touches(d.value, path)
  {
    if ds == [] then None
    else if Touches(ds[|ds| - 1], path) then Some(ds[|ds| - 1])
    else LastTouch(ds[..|ds| - 1], path)
  }

  function RowAt(t: FileTable, path: string): Option<FileRow> {
    if path in t then Some(t[path]) else None
  }

  lemma {:induction false} UpsertFilesRow(t: FileTable, d: Delivery, files: seq<FileChange>, path: string)
    ensures RowAt(UpsertFiles(t, d.attempt, files), path) ==
            if EntryFor(files, path).Some? then Some(RowFor(d.(files := files), path)) else RowAt(t, path)
  {
    if files != [] { UpsertFilesRow(t, d, files[..|files| - 1], path); }
  }

  /** After any deliveries, a path has the row of the last one that touched it, counts and attempt, or no row. */
  lemma {:induction false} IndexHoldsTheLastTouch(ds: seq<Delivery>, path: string)
    ensures RowAt(UpsertAll(map[], ds), path) ==
            match LastTouch(ds, path) case None => None case Some(d) => Some(RowFor(d, path))
  {
    if ds != [] {
      var front, last := ds[..|ds| - 1], ds[|ds| - 1];
      IndexHoldsTheLastTouch(front, path);
      UpsertFilesRow(UpsertAll(map[], front), last, last.files, path);
    }
  }

  /** The row of a path in plain terms: the numbers of its last mention, and the attempt of the delivery that has it. */
  lemma {:induction false} IndexRow(ds: seq<Delivery>, path: string, i: nat, j: nat)
    requires i < |ds| && j < |ds[i].files| && ds[i].files[j].path == path
    requires forall k | j < k < |ds[i].files| :: ds[i].files[k].path != path
    requires forall k | i < k < |ds| :: forall f | f in ds[k].files :: f.path != path
    ensures RowAt(UpsertAll(map[], ds), path)
            == Some(FileRow(ds[i].files[j].added, ds[i].files[j].removed, ds[i].attempt))
  {
    var front, last := ds[..|ds| - 1], ds[|ds| - 1];
    if i < |ds| - 1 {
      IndexRow(front, path, i, j);
      Unmentioned(UpsertAll(map[], front), last.attempt, last.files, path);
    } else {
      LastMention(UpsertAll(map[], front), last.attempt, last.files, path, j);
    }
  }

  lemma {:induction false} LastMention(t: FileTable, attempt: nat, files: seq<FileChange>, path: string, j: nat)
    requires j < |files| && files[j].path == path && forall k | j < k < |files| :: files[k].path != path
    ensures RowAt(UpsertFiles(t, attempt, files), path) == Some(FileRow(files[j].added, files[j].removed, attempt))
  {
    if j < |files| - 1 { LastMention(t, attempt, files[..|files| - 1], path, j); }
  }

  lemma {:induction false} Unmentioned(t: FileTable, attempt: nat, files: seq<FileChange>, path: string)
    requires forall f | f in files :: f.path != path
    ensures RowAt(UpsertFiles(t, attempt, files), path) == RowAt(t, path)
  {
    if files != [] { Unmentioned(t, attempt, files[..|files| - 1], path); }
  }

  /** Of the deliveries that touch the path, none is of a later attempt than the one whose row stands. */
  predicate HoldsNewest(ds: seq<Delivery>, path: string) {
    forall i | 0 <= i < |ds| && Touches(ds[i], path) ::
      path in UpsertAll(map[], ds) && ds[i].attempt <= UpsertAll(map[], ds)[path].attempt
  }

  /** Of two deliveries that touch the path, the later one is not of an earlier attempt. */
  predicate NotOvertaken(ds: seq<Delivery>, path: string) {
    forall i, j | 0 <= i < j < |ds| && Touches(ds[i], path) && Touches(ds[j], path) :: ds[i].attempt <= ds[j].attempt
  }

  /** Some delivery was the last to touch a path that any touched, and nothing after it did. */
  lemma {:induction false} LastTouchIsLast(ds: seq<Delivery>, path: string)
    ensures LastTouch(ds, path).None? ==> forall i | 0 <= i < |ds| :: !Touches(ds[i], path)
    ensures LastTouch(ds, path).Some? ==>
              exists j | 0 <= j < |ds| ::
                ds[j] == LastTouch(ds, path).value && forall i | j < i < |ds| :: !Touches(ds[i], path)
  {
    if ds != [] && !Touches(ds[|ds| - 1], path) {
      var front := ds[..|ds| - 1];
      LastTouchIsLast(front, path);
      if LastTouch(front, path).Some? {
        var j :| 0 <= j < |front| && front[j] == LastTouch(front, path).value
          && forall i | j < i < |front| :: !Touches(front[i], path);
        assert ds[j] == front[j] && forall i | j < i < |front| :: ds[i] == front[i];
      }
    }
  }

  /** Not overtaken, the index holds the newest attempt's row. */
  lemma NotOvertakenIsNewest(ds: seq<Delivery>, path: string)
    requires NotOvertaken(ds, path)
    ensures HoldsNewest(ds, path)
  {
    IndexHoldsTheLastTouch(ds, path);
    LastTouchIsLast(ds, path);
  }

  /**
   At every moment the index holds, for every path, the row of the newest attempt delivered so far,
   exactly when no delivery is followed by one of a smaller attempt that touches one of its paths.
   */
  lemma IndexIsNewestExactly(ds: seq<Delivery>)
    ensures (forall n, path | 0 <= n <= |ds| :: HoldsNewest(ds[..n], path)) <==> forall path :: NotOvertaken(ds, path)
  {
    if forall path :: NotOvertaken(ds, path) {
      forall n, path | 0 <= n <= |ds| ensures HoldsNewest(ds[..n], path) {
        assert NotOvertaken(ds, path);
        NotOvertakenIsNewest(ds[..n], path);
      }
    }
    if forall n, path | 0 <= n <= |ds| :: HoldsNewest(ds[..n], path) {
      forall path ensures NotOvertaken(ds, path) {
        forall i, j | 0 <= i < j < |ds| && Touches(ds[i], path) && Touches(ds[j], path)
          ensures ds[i].attempt <= ds[j].attempt
        {
          var upTo := ds[..j + 1];
          assert HoldsNewest(upTo, path);
          IndexHoldsTheLastTouch(upTo, path);
          assert upTo[i] == ds[i] && upTo[j] == ds[j];
        }
      }
    }
  }

  /** So a late repeat of an earlier attempt replaces the later attempt's row, whatever the two say. */
  lemma LateRepeatRewindsTheIndex(first: Delivery, second: Delivery, path: string)
    requires Touches(first, path) && Touches(second, path) && first.attempt < second.attempt
    ensures RowAt(UpsertAll(map[], [first, second, first]), path) == Some(RowFor(first, path))
    ensures !HoldsNewest([first, second, first], path)
  {
    var ds := [first, second, first];
    IndexHoldsTheLastTouch(ds, path);
    assert ds[1] == second;
  }

  // ---------------------------------------------------------------- the tables

  /** The first delivery under each key stands, and nothing else is there. */
  ghost predicate FirstStands(t: EventTable, delivered: seq<(string, Event)>) {
    && (forall k | k in t :: exists i | 0 <= i < |delivered| :: KeyOf(delivered[i]) == k)
    && forall i | 0 <= i < |delivered| && IsFirst(delivered, i) ::
       KeyOf(delivered[i]) in t && t[KeyOf(delivered[i])] == delivered[i].1
  }

  function KeyOf(d: (string, Event)): (string, nat) {
    (d.0, d.1.seqNo)
  }

  ghost predicate IsFirst(delivered: seq<(string, Event)>, i: nat)
    requires i < |delivered|
  {
    forall j | 0 <= j < i :: KeyOf(delivered[j]) != KeyOf(delivered[i])
  }

  lemma {:induction false} SomeIsFirst(delivered: seq<(string, Event)>, i: nat) returns (j: nat)
    requires i < |delivered|
    ensures j <= i && IsFirst(delivered, j) && KeyOf(delivered[j]) == KeyOf(delivered[i])
  {
    if IsFirst(delivered, i) {
      j := i;
    } else {
      j :| 0 <= j < i && KeyOf(delivered[j]) == KeyOf(delivered[i]);
      j := SomeIsFirst(delivered, j);
    }
  }

  lemma OneMoreDelivery(t: EventTable, delivered: seq<(string, Event)>, run: string, e: Event)
    requires FirstStands(t, delivered)
    ensures FirstStands(Insert(t, run, e), delivered + [(run, e)])
  {
    var more, k := delivered + [(run, e)], (run, e.seqNo);
    forall x | x in Insert(t, run, e) ensures exists i | 0 <= i < |more| :: KeyOf(more[i]) == x {
      if x == k {
        assert KeyOf(more[|delivered|]) == x;
      } else {
        var i :| 0 <= i < |delivered| && KeyOf(delivered[i]) == x;
        assert KeyOf(more[i]) == x;
      }
    }
    if k in t {
      var j :| 0 <= j < |delivered| && KeyOf(delivered[j]) == k;
      assert KeyOf(more[j]) == k && !IsFirst(more, |delivered|);
    }
    forall i | 0 <= i < |more| && IsFirst(more, i)
      ensures KeyOf(more[i]) in Insert(t, run, e) && Insert(t, run, e)[KeyOf(more[i])] == more[i].1
    {
      if i < |delivered| {
        assert IsFirst(delivered, i) by { assert forall j | 0 <= j < i :: more[j] == delivered[j]; }
      }
    }
  }

  /** The tables, as the activities write them, with everything that was ever delivered to each. */
  class AuditStore {
    var events: EventTable
    var statuses: map<string, Status>
    var files: map<string, FileTable>

    ghost var delivered: seq<(string, Event)>
    ghost var written: map<string, seq<StatusWrite>>
    ghost var indexed: map<string, seq<Delivery>>

    /** Each table is what its history amounts to: what the lemmas above speak of. */
    ghost predicate Valid()
      reads this
    {
      FirstStands(events, delivered) && StatusesOk() && FilesOk()
    }

    ghost predicate StatusesOk()
      reads this`statuses, this`written
    {
      statuses.Keys == written.Keys && forall run | run in written :: statuses[run] == WriteAll(Running, written[run])
    }

    ghost predicate FilesOk()
      reads this`files, this`indexed
    {
      Indexes(files, indexed)
    }

    constructor ()
      ensures Valid() && delivered == [] && written == map[] && indexed == map[]
    {
      events, statuses, files := map[], map[], map[];
      delivered, written, indexed := [], map[], map[];
    }

    /** The first start of a run makes it running; a repeated one leaves its whole history as it was. */
    method RecordRunStarted(run: string)
      requires Valid()
      modifies this`statuses, this`written
      ensures Valid()
      ensures written == if run in old(written) then old(written) else old(written)[run := []]
      ensures forall k | k in old(statuses) :: k in statuses && statuses[k] == old(statuses)[k]
    {
      if run !in statuses { statuses, written := statuses[run := Running], written[run := []]; }
    }

    /** The first row under a key never changes, and no other key is touched. */
    method RecordEvent(run: string, e: Event)
      requires Valid()
      modifies this`events, this`delivered
      ensures Valid() && delivered == old(delivered) + [(run, e)]
      ensures events.Keys == old(events).Keys + {(run, e.seqNo)}
      ensures forall k | k in old(events) :: events[k] == old(events)[k]
    {
      OneMoreDelivery(events, delivered, run, e);
      if (run, e.seqNo) !in events { events := events[(run, e.seqNo) := e]; }
      delivered := delivered + [(run, e)];
    }

    method RecordRunStatus(run: string, status: Status)
      requires Valid()
      modifies this`statuses, this`written
      ensures Valid()
      ensures written == if run in old(written) then old(written)[run := old(written)[run] + [Changed(status)]]
              else old(written)
      ensures forall k | k in statuses && k != run :: statuses[k] == old(statuses)[k]
      ensures run in statuses ==> statuses[run] == if Open(old(statuses)[run]) then status else old(statuses)[run]
    {
      if run in written {
        OneMoreWrite(written[run], Changed(status));
        written := written[run := written[run] + [Changed(status)]];
      }
      if run in statuses && (statuses[run] == Running || statuses[run] == Suspended) {
        statuses := statuses[run := status];
      }
    }

    method RecordRunFiles(run: string, attempt: nat, changed: seq<FileChange>)
      requires Valid()
      modifies this`files, this`indexed
      ensures Valid()
      ensures changed == [] ==> files == old(files) && indexed == old(indexed)
      ensures changed != [] ==>
                indexed == old(indexed)[run := HistoryOf(old(indexed), run) + [Delivery(attempt, changed)]]
    {
      if changed == [] { return; }
      var table := IndexOf(files, run);
      ghost var history := HistoryOf(indexed, run);
      OneMoreIndexed(files, indexed, run, Delivery(attempt, changed));
      table := UpsertRows(table, attempt, changed);
      files := files[run := table];
      indexed := indexed[run := history + [Delivery(attempt, changed)]];
    }

    /** `executemany`, row after row. */
    method UpsertRows(before: FileTable, attempt: nat, changed: seq<FileChange>) returns (table: FileTable)
      ensures table == UpsertFiles(before, attempt, changed)
    {
      table := before;
      for i := 0 to |changed|
        invariant table == UpsertFiles(before, attempt, changed[..i])
      {
        table := table[changed[i].path := FileRow(changed[i].added, changed[i].removed, attempt)];
        assert changed[..i + 1][..i] == changed[..i];
      }
      assert changed[..|changed|] == changed;
    }

    method RecordRunEnded(run: string, status: Status)
      requires Valid()
      modifies this`statuses, this`written
      ensures Valid()
      ensures written == if run in old(written) then old(written)[run := old(written)[run] + [Ended(status)]]
              else old(written)
      ensures forall k | k in statuses && k != run :: statuses[k] == old(statuses)[k]
      ensures run in statuses ==> statuses[run] == status
    {
      if run in written {
        OneMoreWrite(written[run], Ended(status));
        written := written[run := written[run] + [Ended(status)]];
      }
      if run in statuses { statuses := statuses[run := status]; }
    }
  }

  lemma OneMoreWrite(ws: seq<StatusWrite>, w: StatusWrite)
    ensures WriteAll(Running, ws + [w]) == Write(WriteAll(Running, ws), w)
  {
    assert (ws + [w])[..|ws|] == ws;
  }

  /** Each run's index is the result of its deliveries. */
  predicate Indexes(files: map<string, FileTable>, indexed: map<string, seq<Delivery>>) {
    files.Keys == indexed.Keys && forall run | run in indexed :: files[run] == UpsertAll(map[], indexed[run])
  }

  function IndexOf(files: map<string, FileTable>, run: string): FileTable {
    if run in files then files[run] else map[]
  }

  function HistoryOf(indexed: map<string, seq<Delivery>>, run: string): seq<Delivery> {
    if run in indexed then indexed[run] else []
  }

  lemma OneMoreIndexed(files: map<string, FileTable>, indexed: map<string, seq<Delivery>>, run: string, d: Delivery)
    requires Indexes(files, indexed)
    ensures Indexes(files[run := UpsertFiles(IndexOf(files, run), d.attempt, d.files)],
                    indexed[run := HistoryOf(indexed, run) + [d]])
  {
    var history := HistoryOf(indexed, run);
    assert (history + [d])[..|history|] == history;
    assert IndexOf(files, run) == UpsertAll(map[], history);
    assert UpsertAll(map[], history + [d]) == UpsertFiles(IndexOf(files, run), d.attempt, d.files);
  }

  /** Whatever is delivered to the store, a run that has ended stays ended as it last did. */
  lemma StoreKeepsEnds(store: AuditStore, run: string)
    requires store.Valid() && run in store.written && LastEnd(store.written[run]).Some?
    requires forall w | w in store.written[run] && w.Ended? :: !Open(w.status)
    ensures run in store.statuses && Some(store.statuses[run]) == LastEnd(store.written[run])
  {
    EndedStaysEnded(Running, store.written[run]);
  }
}
