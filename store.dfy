/**
 * The event manager of work/events.py: the document `_data` with its active-event pair and its
 * map of records, the `_sync` load/save decision, and the `start`, `stop` and `list` commands.
 *
 * The file at the storage path is modelled as the field `storage` of the manager; JSON encoding
 * is abstracted away, so a well-formed file is the document itself.
 */
module Store {
  import opened Wrappers
  import opened Events

  /** The document `_data`: `active_event_hash`, `active_start_time` and `events`. */
  datatype Snapshot = Snapshot(activeEventHash: Option<Key>, activeStartTime: Option<Micros>, events: map<Key, Event>)

  /** `default_data`: nothing active, no records. */
  const DefaultData := Snapshot(None, None, map[])

  /** What the storage path holds: no file, a file that does not parse, or a saved document. */
  datatype Stored = Missing | Malformed | Document(doc: Snapshot)

  /** The load half of `_sync`: a missing file and a file that fails to parse both give `default_data`. */
  function Load(stored: Stored): Snapshot {
    match stored
    case Document(doc) => doc
    case _ => DefaultData
  }

  /** What `stop` reports: nothing was running, the line it printed, or the exception it raised. */
  datatype Outcome = NotRunning | Stopped(line: string) | Crashed

  /** A command's effect on the document together with its outcome. */
  datatype Step = Step(data: Snapshot, outcome: Outcome)

  /** The active key and the start time are set together, and a set active key names a record. */
  predicate Paired(d: Snapshot) {
    && (d.activeEventHash.None? <==> d.activeStartTime.None?)
    && (d.activeEventHash.Some? ==> d.activeEventHash.value in d.events)
  }

  /** Every record is stored under the key of its own name. */
  predicate WellKeyed(d: Snapshot) {
    forall k :: k in d.events ==> KeyOf(d.events[k].name) == k
  }

  predicate Valid(d: Snapshot) {
    Paired(d) && WellKeyed(d)
  }

  /**
   * `EventManager.stop` on the document, at clock reading now. Nothing changes unless the active
   * key names a record; when it does but no start time is recorded, `strptime(None, ...)` raises
   * before anything is written.
   */
  function StopData(d: Snapshot, now: Micros): (r: Step)
    ensures r.outcome.NotRunning? <==> d.activeEventHash.None? || d.activeEventHash.value !in d.events
    ensures r.outcome.Crashed? <==> d.activeEventHash.Some? && d.activeEventHash.value in d.events && d.activeStartTime.None?
    ensures !r.outcome.Stopped? ==> r.data == d
    ensures r.outcome.Stopped? ==>
      var k := d.activeEventHash.value;
      && r.data.activeEventHash == None && r.data.activeStartTime == None
      && r.data.events.Keys == d.events.Keys
      && r.data.events[k] == StopEvent(d.events[k], d.activeStartTime.value, now)
      && (forall j :: j in d.events && j != k ==> r.data.events[j] == d.events[j])
      && r.outcome.line == FormatEvent(r.data.events[k])
  {
    if d.activeEventHash.None? || d.activeEventHash.value !in d.events then Step(d, NotRunning)
    else if d.activeStartTime.None? then Step(d, Crashed)
    else
      var k := d.activeEventHash.value;
      var stopped := StopEvent(d.events[k], d.activeStartTime.value, now);
      Step(Snapshot(None, None, d.events[k := stopped]), Stopped(FormatEvent(stopped)))
  }

  /**
   * `EventManager.start(name)` on the document. It first stops whatever runs (at clock reading
   * stopNow), then makes the record of name active from clock reading now, keeping the record
   * if there is one and creating it otherwise. An exception in the implicit stop aborts it.
   */
  function StartData(d: Snapshot, name: string, stopNow: Micros, now: Micros): (r: Step)
    ensures r.outcome == StopData(d, stopNow).outcome
    ensures r.outcome.Crashed? ==> r.data == d
    ensures !r.outcome.Crashed? ==>
      var k := KeyOf(name);
      && r.data.activeEventHash == Some(k) && r.data.activeStartTime == Some(now)
      && r.data.events.Keys == d.events.Keys + {k}
      && (k !in d.events ==> r.data.events[k] == NewEvent(name))
      && (k in d.events && (r.outcome.NotRunning? || Some(k) != d.activeEventHash) ==> r.data.events[k] == d.events[k])
      && (r.outcome.Stopped? ==>
            var a := d.activeEventHash.value;
            r.data.events[a] == StopEvent(d.events[a], d.activeStartTime.value, stopNow))
      && (forall j :: j in d.events && j != k && Some(j) != d.activeEventHash ==> r.data.events[j] == d.events[j])
  {
    var stopped := StopData(d, stopNow);
    if stopped.outcome.Crashed? then stopped
    else
      var k := KeyOf(name);
      var ev := if k in stopped.data.events then stopped.data.events[k] else NewEvent(name);
      Step(Snapshot(Some(k), Some(now), stopped.data.events[k := ev]), stopped.outcome)
  }

  // ---------------------------------------------------------------------------
  // Invariants of the document

  /** On a valid document the implicit `strptime(None, ...)` never happens. */
  lemma ValidNeverCrashes(d: Snapshot, now: Micros)
    requires Paired(d)
    ensures !StopData(d, now).outcome.Crashed?
  {
  }

  lemma StopKeepsValid(d: Snapshot, now: Micros)
    requires Valid(d)
    ensures Valid(StopData(d, now).data)
  {
  }

  lemma StartKeepsValid(d: Snapshot, name: string, stopNow: Micros, now: Micros)
    requires Valid(d)
    ensures Valid(StartData(d, name, stopNow, now).data)
  {
  }

  /** A command as issued by the command line, with the clock readings it makes. */
  datatype Command = StartCommand(name: string, stopNow: Micros, now: Micros) | StopCommand(now: Micros)

  function Apply(d: Snapshot, c: Command): Snapshot {
    match c
    case StartCommand(name, stopNow, now) => StartData(d, name, stopNow, now).data
    case StopCommand(now) => StopData(d, now).data
  }

  /** The document after a sequence of commands. */
  function Run(d: Snapshot, cs: seq<Command>): Snapshot
    decreases |cs|
  {
    if cs == [] then d else Run(Apply(d, cs[0]), cs[1..])
  }

  lemma {:induction false} RunKeepsValid(d: Snapshot, cs: seq<Command>)
    requires Valid(d)
    ensures Valid(Run(d, cs))
    decreases |cs|
  {
    if cs != [] {
      match cs[0] {
        case StartCommand(name, stopNow, now) => StartKeepsValid(d, name, stopNow, now);
        case StopCommand(now) => StopKeepsValid(d, now);
      }
      RunKeepsValid(Apply(d, cs[0]), cs[1..]);
    }
  }

  /**
   * One invocation of the program: a manager built on the stored file runs one command, and the
   * file afterwards is what that command saved. `start` saves unless its implicit stop raised;
   * `stop` saves only when it stopped something.
   */
  function Invoke(stored: Stored, c: Command): Stored {
    var d := Load(stored);
    match c
    case StartCommand(name, stopNow, now) =>
      var r := StartData(d, name, stopNow, now);
      if r.outcome.Crashed? then stored else Document(r.data)
    case StopCommand(now) =>
      var r := StopData(d, now);
      if r.outcome.Stopped? then Document(r.data) else stored
  }

  /** The file after one invocation per command. */
  function Invocations(stored: Stored, cs: seq<Command>): Stored
    decreases |cs|
  {
    if cs == [] then stored else Invocations(Invoke(stored, cs[0]), cs[1..])
  }

  /** A command that saves nothing leaves the loaded document as it was, so the file still loads to the result. */
  lemma InvokeLoads(stored: Stored, c: Command)
    ensures Load(Invoke(stored, c)) == Apply(Load(stored), c)
  {
  }

  /**
   * The document survives between invocations: running the commands one process at a time,
   * each loading the file the previous one left, ends with a file that loads to the document a
   * single manager would hold after running them all.
   */
  lemma {:induction false} InvocationsResume(stored: Stored, cs: seq<Command>)
    ensures Load(Invocations(stored, cs)) == Run(Load(stored), cs)
    decreases |cs|
  {
    if cs != [] {
      InvokeLoads(stored, cs[0]);
      InvocationsResume(Invoke(stored, cs[0]), cs[1..]);
    }
  }

  /** From `default_data`, every sequence of starts and stops keeps the active pair consistent. */
  lemma DefaultRunValid(cs: seq<Command>)
    ensures Valid(Run(DefaultData, cs))
  {
    RunKeepsValid(DefaultData, cs);
  }

  /** Every record's counter is accounted for by its intervals. */
  ghost predicate AllAccounted(d: Snapshot) {
    forall k :: k in d.events ==> Accounted(d.events[k])
  }

  /** The clock reading at which a command closes the open interval is not before its start. */
  predicate ClockForward(d: Snapshot, c: Command) {
    var closeAt := match c case StartCommand(_, stopNow, _) => stopNow case StopCommand(now) => now;
    d.activeStartTime.Some? ==> d.activeStartTime.value <= closeAt
  }

  /** The clock never runs backwards across the intervals a command sequence closes. */
  predicate Timeline(d: Snapshot, cs: seq<Command>)
    decreases |cs|
  {
    cs == [] || (ClockForward(d, cs[0]) && Timeline(Apply(d, cs[0]), cs[1..]))
  }

  lemma StopKeepsAccounted(d: Snapshot, now: Micros)
    requires AllAccounted(d)
    requires d.activeStartTime.Some? ==> d.activeStartTime.value <= now
    ensures AllAccounted(StopData(d, now).data)
  {
    var r := StopData(d, now);
    if r.outcome.Stopped? {
      var k := d.activeEventHash.value;
      StopEventAccounted(d.events[k], d.activeStartTime.value, now);
    }
  }

  lemma StartKeepsAccounted(d: Snapshot, name: string, stopNow: Micros, now: Micros)
    requires AllAccounted(d)
    requires d.activeStartTime.Some? ==> d.activeStartTime.value <= stopNow
    ensures AllAccounted(StartData(d, name, stopNow, now).data)
  {
    StopKeepsAccounted(d, stopNow);
  }

  /**
   * Along a timeline, every record's counter stays within one second per interval of the total
   * of its intervals, and never exceeds it.
   */
  lemma {:induction false} RunKeepsAccounted(d: Snapshot, cs: seq<Command>)
    requires AllAccounted(d) && Timeline(d, cs)
    ensures AllAccounted(Run(d, cs))
    decreases |cs|
  {
    if cs != [] {
      match cs[0] {
        case StartCommand(name, stopNow, now) => StartKeepsAccounted(d, name, stopNow, now);
        case StopCommand(now) => StopKeepsAccounted(d, now);
      }
      RunKeepsAccounted(Apply(d, cs[0]), cs[1..]);
    }
  }

  // ---------------------------------------------------------------------------
  // Listing

  /** Every key of order names a record. */
  predicate Listed(events: map<Key, Event>, order: seq<Key>) {
    forall i :: 0 <= i < |order| ==> order[i] in events
  }

  /**
   * Part way through `list`: order holds the keys done so far, each once, and remaining the
   * keys still to do.
   */
  ghost predicate Listing(events: map<Key, Event>, order: seq<Key>, remaining: set<Key>) {
    && remaining <= events.Keys
    && (forall i, j :: 0 <= i < j < |order| ==> order[i] != order[j])
    && (forall k :: k in events <==> k in order || k in remaining)
    && (forall i :: 0 <= i < |order| ==> order[i] in events && order[i] !in remaining)
  }

  lemma ListingStep(events: map<Key, Event>, order: seq<Key>, remaining: set<Key>, k: Key)
    requires Listing(events, order, remaining) && k in remaining
    ensures Listing(events, order + [k], remaining - {k})
  {
  }

  /** A listing that names each key of a set exactly once is as long as the set. */
  lemma {:induction false} ListingSize(order: seq<Key>, keys: set<Key>)
    requires forall i, j :: 0 <= i < j < |order| ==> order[i] != order[j]
    requires forall k :: k in keys <==> k in order
    ensures |keys| == |order|
    decreases |order|
  {
    if order != [] {
      var last, rest := order[|order| - 1], order[..|order| - 1];
      assert order == rest + [last];
      assert forall k :: k in keys - {last} <==> k in rest;
      ListingSize(rest, keys - {last});
    }
  }

  /** The formatted records named by order, in that order. */
  function Lines(events: map<Key, Event>, order: seq<Key>): seq<string>
    requires Listed(events, order)
  {
    if order == [] then []
    else Lines(events, order[..|order| - 1]) + [FormatEvent(events[order[|order| - 1]])]
  }

  /** Line i of a listing is the formatted record of the i-th key. */
  lemma {:induction false} LinesAt(events: map<Key, Event>, order: seq<Key>, i: nat)
    requires Listed(events, order) && i < |order|
    ensures |Lines(events, order)| == |order| && Lines(events, order)[i] == FormatEvent(events[order[i]])
  {
    if i < |order| - 1 {
      LinesAt(events, order[..|order| - 1], i);
    } else if |order| > 1 {
      LinesLength(events, order[..|order| - 1]);
    }
  }

  lemma {:induction false} LinesLength(events: map<Key, Event>, order: seq<Key>)
    requires Listed(events, order)
    ensures |Lines(events, order)| == |order|
  {
    if order != [] {
      LinesLength(events, order[..|order| - 1]);
    }
  }

  // ---------------------------------------------------------------------------
  // The manager object

  /** `EventManager`: the fields of `self._data`, and the file it is synchronised with. */
  class EventManager {
    var activeEventHash: Option<Key>
    var activeStartTime: Option<Micros>
    var events: map<Key, Event>
    /** The content of the file at the storage path. */
    var storage: Stored

    function Data(): Snapshot
      reads this
    {
      Snapshot(activeEventHash, activeStartTime, events)
    }

    /** `__init__`: binds the storage and loads the document once. */
    constructor (stored: Stored)
      ensures storage == stored && Data() == Load(stored)
    {
      storage := stored;
      activeEventHash, activeStartTime, events := None, None, map[];
      new;
      Sync(false);
    }

    /** `_sync`: save writes the whole document; load replaces it by what the file holds. */
    method Sync(dirty: bool)
      modifies this
      ensures dirty ==> storage == Document(old(Data())) && Data() == old(Data())
      ensures !dirty ==> storage == old(storage) && Data() == Load(old(storage))
    {
      if dirty {
        storage := Document(Data());
      } else {
        var doc := match storage case Document(doc) => doc case _ => DefaultData;
        activeEventHash, activeStartTime, events := doc.activeEventHash, doc.activeStartTime, doc.events;
      }
    }

    /** `stop`: closes the active interval, saves, and returns the printed line. */
    method Stop(now: Micros) returns (outcome: Outcome)
      modifies this
      ensures Step(Data(), outcome) == StopData(old(Data()), now)
      ensures outcome.Stopped? ==> storage == Document(Data())
      ensures !outcome.Stopped? ==> storage == old(storage)
    {
      var hash := activeEventHash;
      var start := activeStartTime;
      if hash.None? || hash.value !in events {
        return NotRunning;
      }
      var ev := events[hash.value];
      if start.None? {
        return Crashed;
      }
      var stopped := StopEvent(ev, start.value, now);
      activeEventHash := None;
      activeStartTime := None;
      events := events[hash.value := stopped];
      Sync(true);
      outcome := Stopped(FormatEvent(stopped));
    }

    /** `start(name)`: implicit stop, then make name's record active and save. */
    method Start(name: string, stopNow: Micros, now: Micros) returns (outcome: Outcome)
      modifies this
      ensures Step(Data(), outcome) == StartData(old(Data()), name, stopNow, now)
      ensures !outcome.Crashed? ==> storage == Document(Data())
      ensures outcome.Crashed? ==> storage == old(storage)
    {
      outcome := Stop(stopNow);
      if outcome.Crashed? {
        return;
      }
      var key := KeyOf(name);
      var ev := if key in events then events[key] else NewEvent(name);
      activeEventHash := Some(key);
      activeStartTime := Some(now);
      events := events[key := ev];
      Sync(true);
    }

    /**
     * `list`: one formatted line per record, in the map's iteration order, which is left open:
     * order is some arrangement of the keys, each exactly once.
     */
    method List() returns (lines: seq<string>, ghost order: seq<Key>)
      ensures forall i, j :: 0 <= i < j < |order| ==> order[i] != order[j]
      ensures forall k :: k in events <==> k in order
      ensures |lines| == |order| == |events|
      ensures forall i :: 0 <= i < |order| ==> order[i] in events && lines[i] == FormatEvent(events[order[i]])
    {
      var remaining := events.Keys;
      lines, order := [], [];
      while remaining != {}
        invariant Listing(events, order, remaining) && lines == Lines(events, order)
        decreases remaining
      {
        var k :| k in remaining;
        ListingStep(events, order, remaining, k);
        assert (order + [k])[..|order|] == order;
        lines, order := lines + [FormatEvent(events[k])], order + [k];
        remaining := remaining - {k};
      }
      LinesLength(events, order);
      ListingSize(order, events.Keys);
      forall i | 0 <= i < |order|
        ensures lines[i] == FormatEvent(events[order[i]])
      {
        LinesAt(events, order, i);
      }
    }
  }
}
