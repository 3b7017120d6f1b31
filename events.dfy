/**
 * Event records of the `work` time tracker (work/events.py): creation, display, and
 * closing an open interval.
 *
 * Timestamps and durations are whole microseconds. The source keeps `cumulative_time` as
 * a float number of seconds; here it is an integer number of microseconds, so that the
 * truncation to whole seconds done by `int(...)` stays exact and visible.
 */
module Events {
  import opened Wrappers
  import Timedelta

  /** A point in time or a duration, in microseconds. */
  type Micros = int

  const MicrosPerSecond := 1_000_000

  /** The key of an event: stands for `sha1(name).hexdigest()`, kept injective by construction. */
  datatype Key = Fingerprint(name: string)

  function KeyOf(name: string): Key {
    Fingerprint(name)
  }

  /** One completed interval `(start, end)` of `time_chunks`. */
  datatype Chunk = Chunk(start: Micros, end: Micros)

  /** An event record: the dict with keys `cumulative_time`, `name` and `time_chunks`. */
  datatype Event = Event(cumulativeTime: Micros, name: string, timeChunks: seq<Chunk>)

  /** `int(x)` on a number of seconds x = us / 10^6: the whole seconds, truncated toward zero. */
  function TruncSeconds(us: Micros): (s: int)
    ensures 0 <= us ==> 0 <= s && s * MicrosPerSecond <= us < s * MicrosPerSecond + MicrosPerSecond
    ensures us < 0 ==> s <= 0 && s * MicrosPerSecond - MicrosPerSecond < us <= s * MicrosPerSecond
  {
    if us >= 0 then us / MicrosPerSecond else -((-us) / MicrosPerSecond)
  }

  /** Sum of the lengths of a sequence of chunks. */
  function ChunkTotal(chunks: seq<Chunk>): int {
    if chunks == [] then 0
    else ChunkTotal(chunks[..|chunks| - 1]) + (chunks[|chunks| - 1].end - chunks[|chunks| - 1].start)
  }

  /**
   * What the record's counter says about its intervals: it is never negative, never more than
   * their total, and short of it by at most one second per interval (each stop truncates the
   * earlier total to whole seconds).
   */
  ghost predicate Accounted(ev: Event) {
    var total := ChunkTotal(ev.timeChunks);
    0 <= ev.cumulativeTime <= total && total - |ev.timeChunks| * MicrosPerSecond <= ev.cumulativeTime
  }

  /** `format_event`: the name, a space, and `str(timedelta(seconds=int(cumulative_time)))`. */
  function FormatEvent(ev: Event): string {
    ev.name + " " + Timedelta.Str(TruncSeconds(ev.cumulativeTime))
  }

  /**
   * A formatted record reads back: the line is the name, a space, and a duration that parses
   * to the counter's whole seconds (truncated toward zero).
   */
  lemma FormatEventReadsBack(ev: Event)
    ensures var line := FormatEvent(ev);
      && |line| > |ev.name| && line[..|ev.name|] == ev.name && line[|ev.name|] == ' '
      && Timedelta.Parse(line[|ev.name| + 1..]) == Some(TruncSeconds(ev.cumulativeTime))
  {
    var clock := Timedelta.Str(TruncSeconds(ev.cumulativeTime));
    Timedelta.ParseStr(TruncSeconds(ev.cumulativeTime));
    JoinedAfterSpace(ev.name, clock);
  }

  /** `new_event`: a zero counter, no intervals. */
  function NewEvent(name: string): (ev: Event)
    ensures ev.name == name && ev.cumulativeTime == 0 && ev.timeChunks == []
    ensures Accounted(ev)
    ensures FormatEvent(ev) == name + " 0:00:00"
  {
    Timedelta.StrUnderTenSeconds(0);
    Event(0, name, [])
  }

  /**
   * `stop_event`: closes the interval that began at activeStartTime at the instant now. The
   * counter is first truncated to whole seconds and then the elapsed time is added; the elapsed
   * time is a plain difference, so a clock that ran backwards makes it negative.
   */
  function StopEvent(ev: Event, activeStartTime: Micros, now: Micros): (r: Event)
    ensures r.name == ev.name
    ensures r.timeChunks == ev.timeChunks + [Chunk(activeStartTime, now)]
    ensures r.cumulativeTime == TruncSeconds(ev.cumulativeTime) * MicrosPerSecond + (now - activeStartTime)
    ensures 0 <= ev.cumulativeTime && activeStartTime <= now ==>
      0 <= r.cumulativeTime && ev.cumulativeTime - MicrosPerSecond < r.cumulativeTime - (now - activeStartTime) <= ev.cumulativeTime
  {
    Event(TruncSeconds(ev.cumulativeTime) * MicrosPerSecond + (now - activeStartTime),
          ev.name,
          ev.timeChunks + [Chunk(activeStartTime, now)])
  }

  lemma JoinedAfterSpace(a: string, b: string)
    ensures (a + " " + b)[..|a|] == a && (a + " " + b)[|a|] == ' ' && (a + " " + b)[|a| + 1..] == b
  {
    assert a + " " + b == a + ([' '] + b);
  }

  lemma ChunkTotalAppend(chunks: seq<Chunk>, c: Chunk)
    ensures ChunkTotal(chunks + [c]) == ChunkTotal(chunks) + (c.end - c.start)
  {
    assert (chunks + [c])[..|chunks|] == chunks;
  }

  /** Closing an interval that did not run backwards keeps the counter accounted for by the intervals. */
  lemma StopEventAccounted(ev: Event, activeStartTime: Micros, now: Micros)
    requires Accounted(ev) && activeStartTime <= now
    ensures Accounted(StopEvent(ev, activeStartTime, now))
  {
    ChunkTotalAppend(ev.timeChunks, Chunk(activeStartTime, now));
  }

  /**
   * The counter is not the sum of the intervals: two half-second intervals leave the counter at
   * half a second, because the second stop first truncates the first half second away.
   */
  lemma CounterLagsIntervals()
    ensures var ev := StopEvent(StopEvent(NewEvent("x"), 0, 500_000), 1_000_000, 1_500_000);
      ev.cumulativeTime == 500_000 && ChunkTotal(ev.timeChunks) == 1_000_000
  {
    var ev1 := StopEvent(NewEvent("x"), 0, 500_000);
    assert ev1.cumulativeTime == 500_000 && ev1.timeChunks == [Chunk(0, 500_000)];
    assert TruncSeconds(ev1.cumulativeTime) == 0;
    ChunkTotalAppend([], Chunk(0, 500_000));
    ChunkTotalAppend(ev1.timeChunks, Chunk(1_000_000, 1_500_000));
  }

  /** Closing a seven-second interval on a fresh record displays as `name 0:00:07`. */
  lemma FreshStopDisplay(name: string, start: Micros)
    ensures FormatEvent(StopEvent(NewEvent(name), start, start + 7_250_000)) == name + " 0:00:07"
  {
    var ev := StopEvent(NewEvent(name), start, start + 7_250_000);
    assert TruncSeconds(ev.cumulativeTime) == 7;
    Timedelta.StrUnderTenSeconds(7);
  }
}
