/**
 The configuration cache (`engine/config_store.py`), for one application. A call of `resolve` runs from
 one `await` to the next without interruption, so the methods of `Store` are those stretches, the writes
 and the passing of time between them, and every interleaving is a sequence of them.
 */
module ConfigStore {
  import opened Options

  type Model = string

  datatype Config = Config(model: Model, body: string)

  /** What the query reads: whether the application is registered, its stored text and stamp, its control point. */
  datatype Row = Row(registered: bool, text: Option<string>, stamp: string, model: Model)

  /** The row as it stood from some reading of the clock on, until the next version. */
  datatype Version = Version(row: Row, from: real)

  datatype Entry = Entry(config: Config, stamp: string, expires: real)

  /** A call past its first look at the cache: its clock reading, what it saw cached, and the row once read. */
  datatype Pending = Pending(now: real, cached: Option<Entry>, row: Option<Row>)

  datatype Denial = NotRegistered | DoesNotParse | ModelsDisagree

  datatype Outcome = Stored(config: Config) | Fallback | Denied(why: Denial)

  datatype Begun = Hit(config: Config) | Waits(id: nat)

  const TTL: real := 10.0

  /** What a call makes of the row it read. */
  function Decided(parse: string -> Option<Config>, cached: Option<Entry>, row: Row): Outcome {
    if !row.registered then Denied(NotRegistered)
    else if row.text.None? then Fallback
    else if cached.Some? && cached.value.stamp == row.stamp then Stored(cached.value.config)
    else
      match parse(row.text.value)
      case None => Denied(DoesNotParse)
      case Some(config) => if config.model != row.model then Denied(ModelsDisagree) else Stored(config)
  }

  /**
   When each answer is given; no two of the conditions hold of one row. A registered application without a
   text gets the fallback, an unregistered one is denied, and a text is parsed and compared with the
   registry's model unless it is cached under the same stamp.
   */
  lemma DecidedMeaning(parse: string -> Option<Config>, cached: Option<Entry>, row: Row)
    ensures var upToDate := cached.Some? && cached.value.stamp == row.stamp;
            var parsed := if row.text.Some? then parse(row.text.value) else None;
            match Decided(parse, cached, row)
            case Fallback => row.registered && row.text == None
            case Stored(config) =>
              && row.registered && row.text != None
              && if upToDate then config == cached.value.config
                 else parsed == Some(config) && config.model == row.model
            case Denied(NotRegistered) => !row.registered
            case Denied(DoesNotParse) => row.registered && row.text != None && !upToDate && parsed == None
            case Denied(ModelsDisagree) =>
              row.registered && !upToDate && parsed != None && parsed.value.model != row.model
  {
  }

  // ---------------------------------------------------------------- what has stood in the table

  /** Version `i` was the row when the clock read `at`. */
  predicate Stood(history: seq<Version>, clock: real, i: nat, at: real) {
    && i < |history| && history[i].from <= at <= clock
    && (i + 1 < |history| ==> at <= history[i + 1].from)
  }

  /** At `at` the table held a text, under this stamp, that parses as the configuration. */
  ghost predicate HeldAt(history: seq<Version>, clock: real, parse: string -> Option<Config>, config: Config,
                         stamp: string, at: real) {
    exists i: nat | Stood(history, clock, i, at) ::
      var row := history[i].row;
      row.text.Some? && row.stamp == stamp && parse(row.text.value) == Some(config)
  }

  /** It did at some reading from `since` on. */
  ghost predicate HeldSince(history: seq<Version>, clock: real, parse: string -> Option<Config>, config: Config,
                            stamp: string, since: real) {
    exists at :: at >= since && HeldAt(history, clock, parse, config, stamp, at)
  }

  /** When version `i` was replaced; the last one still stands. */
  function Until(history: seq<Version>, clock: real, i: nat): real
    requires i < |history|
  {
    if i + 1 < |history| then history[i + 1].from else clock
  }

  predicate IsInOrderAt(history: seq<Version>, clock: real, i: nat)
    requires i < |history|
  {
    history[i].from <= Until(history, clock, i) <= clock
  }

  /** Versions follow one another, up to now. */
  predicate InOrder(history: seq<Version>, clock: real) {
    forall i | 0 <= i < |history| :: IsInOrderAt(history, clock, i)
  }

  /** Version `i` holds a text, under this stamp, that parses as the configuration. */
  predicate IsVersionOf(history: seq<Version>, i: nat, parse: string -> Option<Config>, config: Config, stamp: string)
    requires i < |history|
  {
    var row := history[i].row;
    row.text.Some? && row.stamp == stamp && parse(row.text.value) == Some(config)
  }

  /** It stood less than the lifetime of an entry ago. */
  ghost predicate HeldLately(history: seq<Version>, clock: real, parse: string -> Option<Config>, config: Config,
                             stamp: string)
  {
    exists since | since > clock - TTL :: HeldSince(history, clock, parse, config, stamp, since)
  }

  /** So it did exactly when a version that holds it was not replaced before then. */
  lemma HeldLatelyExactly(history: seq<Version>, clock: real, parse: string -> Option<Config>, config: Config,
                          stamp: string)
    requires InOrder(history, clock)
    ensures HeldLately(history, clock, parse, config, stamp) <==>
            exists i: nat | i < |history| && IsVersionOf(history, i, parse, config, stamp) ::
              Until(history, clock, i) > clock - 10.0
  {
    if i: nat :|
      i < |history| && IsVersionOf(history, i, parse, config, stamp) && Until(history, clock, i) > clock - TTL
    {
      var at := Until(history, clock, i);
      assert IsInOrderAt(history, clock, i) && Stood(history, clock, i, at);
      assert HeldAt(history, clock, parse, config, stamp, at);
      assert HeldSince(history, clock, parse, config, stamp, at);
    }
    if since :| since > clock - TTL && HeldSince(history, clock, parse, config, stamp, since) {
      var at :| at >= since && HeldAt(history, clock, parse, config, stamp, at);
      var i: nat :| Stood(history, clock, i, at) && IsVersionOf(history, i, parse, config, stamp);
      assert IsInOrderAt(history, clock, i);
    }
  }

  /** Two texts stored under one stamp are one text. */
  predicate StampsTell(history: seq<Version>) {
    forall i, j | 0 <= i < |history| && 0 <= j < |history| :: SameIfSameStamp(history[i].row, history[j].row)
  }

  predicate SameIfSameStamp(a: Row, b: Row) {
    a.text.Some? && b.text.Some? && a.stamp == b.stamp ==> a.text == b.text
  }

  /** An entry holds what the table held no longer than the lifetime of the entry ago. */
  ghost predicate Justified(history: seq<Version>, clock: real, parse: string -> Option<Config>, e: Entry) {
    HeldSince(history, clock, parse, e.config, e.stamp, e.expires - TTL)
  }

  /** The row a call read stood at some time after the call began. */
  ghost predicate ReadSince(history: seq<Version>, clock: real, row: Row, since: real) {
    exists i: nat, at | Stood(history, clock, i, at) :: at >= since && history[i].row == row
  }

  ghost predicate Genuine(history: seq<Version>, clock: real, parse: string -> Option<Config>, p: Pending) {
    && p.now <= clock
    && (p.cached.Some? ==> Justified(history, clock, parse, p.cached.value))
    && (p.row.Some? ==> ReadSince(history, clock, p.row.value, p.now))
  }

  /** Later times and further versions change nothing of what stood. */
  predicate Extends(h: seq<Version>, clock: real, h2: seq<Version>, clock2: real) {
    && |h| <= |h2| && h == h2[..|h|] && clock <= clock2
    && (|h| < |h2| ==> clock <= h2[|h|].from)
  }

  lemma StillStood(h: seq<Version>, clock: real, h2: seq<Version>, clock2: real)
    requires Extends(h, clock, h2, clock2)
    ensures forall i: nat, at | Stood(h, clock, i, at) :: Stood(h2, clock2, i, at) && h2[i] == h[i]
  {
  }

  lemma StillGenuine(h: seq<Version>, clock: real, h2: seq<Version>, clock2: real, parse: string -> Option<Config>,
                     p: Pending)
    requires Extends(h, clock, h2, clock2) && Genuine(h, clock, parse, p)
    ensures Genuine(h2, clock2, parse, p)
  {
    StillStood(h, clock, h2, clock2);
    if p.cached.Some? { StillJustified(h, clock, h2, clock2, parse, p.cached.value); }
  }

  lemma StillJustified(h: seq<Version>, clock: real, h2: seq<Version>, clock2: real, parse: string -> Option<Config>,
                       e: Entry)
    requires Extends(h, clock, h2, clock2) && Justified(h, clock, parse, e)
    ensures Justified(h2, clock2, parse, e)
  {
    StillStood(h, clock, h2, clock2);
    var at :| at >= e.expires - TTL && HeldAt(h, clock, parse, e.config, e.stamp, at);
    assert HeldAt(h2, clock2, parse, e.config, e.stamp, at);
  }

  // ---------------------------------------------------------------- the store

  class Store {
    const parse: string -> Option<Config>

    var cache: Option<Entry>
    var clock: real
    var calls: map<nat, Pending>

    /** Every version of the row so far; the last one stands. */
    ghost var history: seq<Version>

    constructor (parse: string -> Option<Config>, row: Row, clock: real)
      ensures Valid() && this.parse == parse && cache == None && calls == map[]
      ensures this.clock == clock && history == [Version(row, clock)]
    {
      this.parse, this.clock := parse, clock;
      cache, calls, history := None, map[], [Version(row, clock)];
    }

    ghost predicate Valid()
      reads this
    {
      && history != [] && InOrder(history, clock) && StampsTell(history)
      && (cache.Some? ==> Justified(history, clock, parse, cache.value))
      && (forall id | id in calls :: Genuine(history, clock, parse, calls[id]))
    }

    ghost function Current(): Row
      reads this
      requires history != []
    {
      history[|history| - 1].row
    }

    method Tick(seconds: real)
      requires Valid() && seconds >= 0.0
      modifies this`clock
      ensures Valid() && clock == old(clock) + seconds
    {
      ghost var h, c := history, clock;
      clock := clock + seconds;
      Later(h, c);
    }

    /** A write by anyone, of the text or of the registered control point; a new text has a new stamp. */
    method Write(row: Row)
      requires Valid() && forall i | 0 <= i < |history| :: SameIfSameStamp(history[i].row, row)
      modifies this`history
      ensures Valid() && history == old(history) + [Version(row, clock)]
    {
      ghost var h, c := history, clock;
      history := history + [Version(row, clock)];
      Later(h, c);
    }

    /** What was justified stays so. */
    lemma Later(h: seq<Version>, c: real)
      requires Extends(h, c, history, clock) && InOrder(h, c)
      requires |history| <= |h| + 1 && (|h| < |history| ==> history[|h|].from <= clock)
      requires cache.Some? ==> Justified(h, c, parse, cache.value)
      requires forall id | id in calls :: Genuine(h, c, parse, calls[id])
      ensures InOrder(history, clock)
      ensures cache.Some? ==> Justified(history, clock, parse, cache.value)
      ensures forall id | id in calls :: Genuine(history, clock, parse, calls[id])
    {
      forall i | 0 <= i < |history| ensures IsInOrderAt(history, clock, i) {
        if i < |h| { assert IsInOrderAt(h, c, i); }
      }
      if cache.Some? { StillJustified(h, c, history, clock, parse, cache.value); }
      forall id | id in calls ensures Genuine(history, clock, parse, calls[id]) {
        StillGenuine(h, c, history, clock, parse, calls[id]);
      }
    }

    method Forget()
      requires Valid()
      modifies this`cache
      ensures Valid() && cache == None
    {
      cache := None;
    }

    /** `resolve`, up to the query: an entry that has not expired answers at once. */
    method Begin(id: nat) returns (r: Begun)
      requires Valid() && id !in calls
      modifies this`calls
      ensures Valid()
      ensures r.Hit? <==> cache.Some? && cache.value.expires > clock
      ensures r.Hit? ==> calls == old(calls) && r.config == cache.value.config
      ensures r.Hit? ==> HeldLately(history, clock, parse, r.config, cache.value.stamp)
      ensures r.Waits? ==> calls == old(calls)[id := Pending(clock, cache, None)]
    {
      if cache.Some? && cache.value.expires > clock {
        assert cache.value.expires - TTL > clock - TTL;
        return Hit(cache.value.config);
      }
      calls := calls[id := Pending(clock, cache, None)];
      r := Waits(id);
    }

    /** The database reads the row for a waiting call. */
    method Read(id: nat, row: Row)
      requires Valid() && id in calls && calls[id].row == None && row == Current()
      modifies this`calls
      ensures Valid() && calls == old(calls)[id := old(calls)[id].(row := Some(row))]
    {
      assert IsInOrderAt(history, clock, |history| - 1) && Stood(history, clock, |history| - 1, clock);
      calls := calls[id := calls[id].(row := Some(row))];
    }

    /**
     `resolve`, after the query. What it stores expires by the clock reading the call began with. A call
     that took less than the lifetime of an entry returns what stood that recently when it returns; of a
     slower one only what stood since it began is known.
     */
    method Resume(id: nat) returns (r: Outcome)
      requires Valid() && id in calls && calls[id].row.Some?
      modifies this`calls, this`cache
      ensures Valid() && calls == old(calls) - {id}
      ensures var p := old(calls)[id];
              && r == Decided(parse, p.cached, p.row.value)
              && (r.Stored? ==> HeldSince(history, clock, parse, r.config, p.row.value.stamp, p.now))
              && (r.Stored? && clock - p.now < TTL ==> HeldLately(history, clock, parse, r.config, p.row.value.stamp))
              && cache == if r.Stored? then Some(Entry(r.config, p.row.value.stamp, p.now + TTL)) else old(cache)
    {
      var p := calls[id];
      var row := p.row.value;
      calls := calls - {id};
      if !row.registered { return Denied(NotRegistered); }
      if row.text.None? { return Fallback; }
      ReadIsHeld(history, clock, parse, p);
      if p.cached.Some? && p.cached.value.stamp == row.stamp {
        cache := Some(Entry(p.cached.value.config, row.stamp, p.now + TTL));
        return Stored(p.cached.value.config);
      }
      var config := parse(row.text.value);
      if config.None? { return Denied(DoesNotParse); }
      if config.value.model != row.model { return Denied(ModelsDisagree); }
      cache := Some(Entry(config.value, row.stamp, p.now + TTL));
      r := Stored(config.value);
    }
  }

  /**
   A stored configuration that a call returns after its query parses a text that stood in the table while
   the call was under way, on the path that re-parses and on the one that trusts an unchanged stamp.
   */
  lemma ReadIsHeld(history: seq<Version>, clock: real, parse: string -> Option<Config>, p: Pending)
    requires StampsTell(history) && Genuine(history, clock, parse, p) && p.row.Some?
    ensures var r := Decided(parse, p.cached, p.row.value);
            r.Stored? ==> HeldSince(history, clock, parse, r.config, p.row.value.stamp, p.now)
  {
    var row, r := p.row.value, Decided(parse, p.cached, p.row.value);
    var i: nat, at :| Stood(history, clock, i, at) && at >= p.now && history[i].row == row;
    if r.Stored? {
      if p.cached.Some? && p.cached.value.stamp == row.stamp {
        StampKnowsTheText(history, clock, parse, p.cached.value, i);
      }
      assert parse(row.text.value) == Some(r.config);
      assert HeldAt(history, clock, parse, r.config, row.stamp, at);
    }
  }

  lemma StampKnowsTheText(history: seq<Version>, clock: real, parse: string -> Option<Config>, e: Entry, i: nat)
    requires StampsTell(history) && Justified(history, clock, parse, e)
    requires i < |history| && history[i].row.text.Some? && history[i].row.stamp == e.stamp
    ensures parse(history[i].row.text.value) == Some(e.config)
  {
    var at :| at >= e.expires - TTL && HeldAt(history, clock, parse, e.config, e.stamp, at);
    var j: nat :| Stood(history, clock, j, at) && history[j].row.text.Some? && history[j].row.stamp == e.stamp
      && parse(history[j].row.text.value) == Some(e.config);
    assert SameIfSameStamp(history[i].row, history[j].row);
  }

  /**
   A call can be slow enough to return a text that was replaced longer ago than that: begun and read at 0,
   with the text replaced at 1, it still returns the old one at any time from 11 on.
   */
  lemma SlowCallReturnsAnOldText(parse: string -> Option<Config>, oldText: string, config: Config, newer: string,
                                 late: real)
    requires parse(oldText) == Some(config) && late >= 11.0
    ensures var read := Row(true, Some(oldText), "1", config.model);
            var history := [Version(read, 0.0), Version(Row(true, Some(newer), "2", config.model), 1.0)];
            var call := Pending(0.0, None, Some(read));
            && InOrder(history, late) && StampsTell(history) && Genuine(history, late, parse, call)
            && Decided(parse, call.cached, read) == Stored(config)
            && !HeldLately(history, late, parse, config, read.stamp)
  {
    var read := Row(true, Some(oldText), "1", config.model);
    var history := [Version(read, 0.0), Version(Row(true, Some(newer), "2", config.model), 1.0)];
    assert Stood(history, late, 0, 0.0) && history[0].row == read;
    HeldLatelyExactly(history, late, parse, config, read.stamp);
  }

  /**
   The bound covers the stored text only. A returned configuration disagrees with the registry row read
   for it exactly when the stamp was unchanged and the configuration cached under it disagrees.
   */
  lemma RegistryIsComparedUnlessUnchanged(parse: string -> Option<Config>, cached: Option<Entry>, row: Row)
    ensures var r := Decided(parse, cached, row);
            (r.Stored? && r.config.model != row.model) <==>
            && row.registered && row.text.Some?
            && cached.Some? && cached.value.stamp == row.stamp && cached.value.config.model != row.model
  {
  }
}
