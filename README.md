# work: a verified model of the event store

`work` is a small command-line time tracker. Its core, `work/events.py`, keeps one document:

- an optional *active* event key (`active_event_hash`);
- an optional start time for that key (`active_start_time`);
- a map `events` from key to record.

Each record holds a `name`, a `cumulative_time` and the list of closed intervals `time_chunks`.

- `start(name)` first stops whatever is running. It then makes the record of `name` active from now on. The record is created if it is missing.
- `stop()` closes the open interval into the active record and clears the active pair. It prints the record as `name H:MM:SS`.
- `start` saves the whole document to the storage file unless its implicit stop raised. `stop` saves only when it actually stopped a record: a `stop` that finds nothing running returns early, and one that raises writes nothing. The file is loaded once, when the manager is built. A missing file and a file that does not parse both load as the empty default document.

The model has four modules:

- `Wrappers` (`wrappers.dfy`): `Option`.
- `Timedelta` (`timedelta.dfy`): Python's `str(timedelta(seconds = s))` for whole seconds, as used by `format_event`. It also has a reader for that text and the proof that the text reads back as `s`.
- `Events` (`events.dfy`): the record helpers `new_event`, `format_event` and `stop_event`, as functions on a record datatype. Times are integer microseconds.
- `Store` (`store.dfy`):
  - the document datatype and `default_data`;
  - the load decision of `_sync`;
  - `start` and `stop` on the document, as the functions `StartData` and `StopData` with their full contracts;
  - the invariants these commands keep, over any sequence of commands;
  - the class `EventManager`. Its fields are the parts of `self._data` plus the file content `storage`. Its methods `Start`, `Stop` and `Sync` change those fields step by step, as the source does, and are proved equal to the document functions. `List` changes nothing and returns the lines it would print.

The module docstring of work/events.py (lines 24-36) describes how starting and stopping should work. Where the code departs from that description, or from what a reader would expect of a time tracker, the model follows the code:

- An event's counter is **not** the sum of its intervals. At work/events.py:62 each stop first truncates the earlier total to whole seconds. What holds instead is `Events.Accounted`: for every record, `0 <= counter <= total` and `total - n seconds <= counter`, where n is the number of intervals. It holds when the clock does not run backwards (`Store.RunKeepsAccounted`). `Events.CounterLagsIntervals` shows a record where the two differ.
- The elapsed time is a plain difference of clock readings, with no clamping. A clock that jumps backwards gives a negative elapsed time.
- No "last event" pointer exists in this code, and `stop` records none.
- If the active key names a record but no start time is stored, `stop` raises. `strptime(None, ...)` fails before anything is written. The model gives the outcome `Crashed` and leaves the state unchanged. It proves that this cannot happen on a document that keeps the pairing invariant (`Store.ValidNeverCrashes`).

## Model

| member | source | states |
|---|---|---|
| `Timedelta.NatToString` | work/events.py:55 | `%d` of a non-negative n writes at least one digit and, from ten on, no leading zero, so the hours field is unpadded. |
| `Timedelta.NatToStringValue` | work/events.py:55 | The `%d` digits of a non-negative n read back as n. |
| `Timedelta.Pad2Value` | work/events.py:55 | `%02d` gives exactly two digits that read back as n. It adds one leading zero below ten and otherwise matches `%d`. |
| `Timedelta.ParseStr` | work/events.py:55 | Round trip: the timedelta text of any whole number of seconds, negative ones included, parses back to that number. |
| `Timedelta.Str` | work/events.py:55 | `str(timedelta(seconds = s))` with floor days. What the text means is stated by `Timedelta.ParseStr`, `Timedelta.StrInjective`, `Timedelta.DayPrefixIff` and `Timedelta.StrUnderTenSeconds`. |
| `Timedelta.StrInjective` | work/events.py:55 | Two durations that display alike are equal. |
| `Timedelta.DayPrefixIff` | work/events.py:55 | The text has a `"D day(s), "` prefix (it contains a comma) exactly when the seconds lie outside `[0, 86400)`. |
| `Timedelta.StrUnderTenSeconds` | work/events.py:55 | Fewer than ten seconds display as `0:00:0S`. |
| `Events.TruncSeconds` | work/events.py:62 | `int(...)` of a seconds value is its whole seconds truncated toward zero. It is characterised by bounds for both signs. |
| `Events.KeyOf` | work/events.py:99 | Stands in for `sha1(name).hexdigest()`. It is injective by construction, so distinct names never share a record. |
| `Events.FormatEvent` | work/events.py:53-55 | `format_event`: the name, a space, and the timedelta text of the truncated whole seconds. What the line means is stated by `Events.FormatEventReadsBack`. |
| `Events.FormatEventReadsBack` | work/events.py:53-55 | A formatted record is the name, one space, and a duration text that parses back to the truncated whole seconds of the counter. |
| `Events.NewEvent` | work/events.py:45-50 | A new record has zero time, no intervals and the given name. It is accounted for and displays as `name 0:00:00`. |
| `Events.StopEvent` | work/events.py:58-66 | Closing an interval keeps the name and appends exactly the chunk `(start, now)` after the old ones. The counter becomes the old counter's whole seconds plus `now - start`. It is non-negative, and within one second of old counter plus elapsed, when the old counter is non-negative and `now >= start`. |
| `Events.StopEventAccounted` | work/events.py:58-66 | Closing an interval that does not run backwards keeps the counter within one second per interval of the interval total, and never above it. |
| `Events.CounterLagsIntervals` | work/events.py:62-64 | Two half-second intervals leave the counter at half a second while the intervals total one second. |
| `Events.FreshStopDisplay` | work/events.py:53-66 | A fresh record stopped after 7.25 s displays as `name 0:00:07`. |
| `Store.Load` | work/events.py:88-95 | The load branch of `_sync`: a saved document, or `default_data` for a missing or unparsable file. Its partner is `Store.InvocationsResume`. |
| `Store.InvocationsResume` | work/events.py:78-122 | Running commands one invocation at a time, where each builds a manager on the file the previous one left and saves as `start` and `stop` do, leaves a file that loads to the document a single manager holds after running them all. |
| `Store.StopData` | work/events.py:111-122 | `stop` is a no-op exactly when nothing is active or the active key names no record. It raises without change exactly when the record exists but no start time does. Otherwise it clears both active fields, keeps the key set, stores `stop_event` of the record under the same key, leaves every other record unchanged, and prints the stopped record's line. |
| `Store.StartData` | work/events.py:97-105 | `start` reports what its implicit stop reports, and an exception there leaves everything unchanged. Otherwise the active key is `Key(name)` and the start time is now. The key set gains exactly `Key(name)`. That record is the pre-existing one, or the just-stopped one if it was active, or `new_event(name)` if it was missing. The previously active record is the stopped one, and every other record is unchanged. |
| `Store.ValidNeverCrashes` | work/events.py:111-117 | On a paired document the implicit `strptime(None, ...)` never happens. |
| `Store.StopKeepsValid` | work/events.py:111-122 | `stop` keeps the pairing invariant (key set iff start time set, and an active key names a record) and keeps every record under the key of its own name. |
| `Store.StartKeepsValid` | work/events.py:97-105 | `start` keeps the same two invariants. |
| `Store.RunKeepsValid` | work/events.py:97-122 | Any sequence of starts and stops keeps the invariants. |
| `Store.DefaultRunValid` | work/events.py:69-73 | From `default_data`, every sequence of starts and stops leaves a valid document. |
| `Store.StopKeepsAccounted` | work/events.py:111-122 | If the clock has not run back past the start, `stop` keeps every record's counter accounted for by its intervals. |
| `Store.StartKeepsAccounted` | work/events.py:97-104 | The same holds for `start`, including the record it creates. |
| `Store.RunKeepsAccounted` | work/events.py:58-66 | Along any sequence of commands whose clock never runs back past an open interval's start, every counter stays accounted for by its intervals. |
| `Store.ListingSize` | work/events.py:107-109 | A listing that names each key of a set exactly once has as many entries as the set. |
| `Store.LinesAt` | work/events.py:107-109 | Line i of a listing is the formatted record of the i-th key listed. |
| `Store.EventManager.constructor` | work/events.py:78-80 | The manager is bound to the storage, and its document is what loading that storage gives. |
| `Store.EventManager.Sync` | work/events.py:82-95 | Save writes the whole document and changes nothing else. Load replaces the document by the file's document, or by `default_data` when the file is missing or malformed. |
| `Store.EventManager.Stop` | work/events.py:111-122 | The new fields and the outcome are exactly `StopData` of the old document. The file holds the new document after a stop, and is untouched after a no-op or an exception. |
| `Store.EventManager.Start` | work/events.py:97-105 | The new fields and the outcome are exactly `StartData` of the old document. The file holds the new document unless the implicit stop raised. |
| `Store.EventManager.List` | work/events.py:107-109 | It returns one line per record. The keys are listed in some order, each exactly once, and line i is `format_event` of the i-th key's record. |

## Left out

- File I/O and JSON (work/events.py:82-95) are modelled as the `storage` field. It is `Missing`, `Malformed` or a `Document`. Encoding is abstracted: JSON turns a chunk tuple into a list, and the model has no such step. A loaded document is assumed to have the three fields with the right shapes. The source would raise `KeyError` later on a file missing a field, and the model does not cover that.
- The storage path and `abspath` are not modelled. The manager is given its storage content directly.
- The `_is_dirty` flag (work/events.py:86) is set but never read, so it is not modelled.
- SHA-1 (work/events.py:99) is replaced by the injective `Events.KeyOf`. Hash collisions are not modelled.
- The clock (`datetime.utcnow`) becomes parameters. `Start` takes two readings, `stopNow` and `now`, because the source reads the clock once in `stop_event` and again in `start`.
- ISO timestamp strings are replaced by integer microseconds. So are `isoformat`/`strptime`, including the library case where `isoformat` omits the microseconds.
- Floating point: `cumulative_time` is exact integer microseconds. The rounding of `total_seconds()` is not modelled.
- Python's `timedelta` range limit is not modelled. Beyond 999999999 days the source raises `OverflowError`, and the model keeps computing.
- `stop_event` mutates the record dict in place. The model returns the updated record, and `stop` stores it back under the same key. Nothing else in the document refers to that dict.
- Aliasing of the module-level `default_data` dict (work/events.py:69-73, 93, 95) is not modelled.
- Printing: `Stop` and `Start` return the printed line inside their outcome, and `List` returns its lines.
- `if not ev` (work/events.py:115) is modelled only as absence of the record. A record dict always has three keys and is never empty.
- `start` with no name: the argument parser makes the name optional (work/frontend.py:28-29), so the value could be `None`, and then `sha1(None)` would raise after the implicit stop. `Start` takes a string name. As written, the command line never reaches `start` at all, as the next line explains.
- `status`, `reset`, `delete` and resuming the last event: work/events.py does not define them. work/frontend.py:38-44 looks them up on the manager while building its dispatch table, so every command raises `AttributeError` at work/frontend.py:39. That happens after the manager has loaded the file and before any command runs. The model treats `EventManager` as a library and leaves the command line out.
- work/frontend.py, timer/events.py, timer/frontend.py and setup.py are argument parsing, an abandoned draft and packaging.
