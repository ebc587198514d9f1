# Ocean sensor ingestion: aggregator sessions, sensor ledgers, central log

A model in Dafny of the ingestion path of a small distributed system of
ocean buoys ("WAVY" devices).

The **aggregator** (`AggregatorApp/Program.cs`) runs one session per device
connection:

- Each frame the device sends is split on `;` and dispatched on its first
  field.
- `HELLO;<id>` binds the session to a device ID, and `REGISTER` is only
  acknowledged.
- `DATA;<sensor>;<value>` is appended to that sensor's ledger file. The first
  line a device writes to a sensor is preceded by a marker line
  `# --- <id> ---`.
- Every `DATA` reading is then forwarded to the central collector as
  `AGG_DATA;<id>;<sensor>;<value>`.
- `BYE` ends the session. Every command that does not fault gets a fixed
  reply.

The **central collector** (`ServerApp/Program.cs`) reads one message per
connection and appends `[<timestamp>] <message>` to its log when the message
starts with `AGG_DATA;`. It always answers `RECEIVED`.

The model has four modules:

- `Text`: .NET's `String.Split(char)` as a function `Split`, its inverse
  `Join`, and an ordinal prefix test standing for the collector's.
- `Ledger`: the ledger state as a value (`Ledgers`, `Appended`, `Replay`),
  the order rule of a ledger file (`WellFormed`), and the class
  `LedgerStore`. The class holds the lock map, the seen-writers registry and
  the files. Its method `Append` is `GravarEmCsv`, proved against
  `Appended`.
- `Collector`: the class `CentralLog`, whose log is a sequence of lines.
  `HandleClient` and `SaveToFile` are its methods, proved against the
  function `Logged`.
- `Gateway`:
  - `Handle` is one step of a session: it maps a device ID and a frame to an
    `Outcome`.
  - `Run` is the whole session as a function of its frames, giving a
    `Trace` of replies, ledger writes and forwarded messages.
  - `Serve` is the session loop, proved against `Run`, `Replay` and
    `Deliver`; `Receive` is one iteration of it.
  - `Record` is the ledger write followed by the forward.
  - `Forward` is `EnviarParaServidor`.

`DATA` performs no check on the sensor or the value: there is no sensor
whitelist and no numeric check. `REGISTER` only replies `REGISTER_ACK`.

The ledger files outlive the process; the lock map and the seen-writers
registry do not. The constructor of `LedgerStore` therefore takes the files
already on disk. The consistency invariant (`Consistent`: one marker per
writing device, before all of its data lines) holds for a run that starts
from an empty ledger folder. `Append` and `Serve` accept any starting state
and keep the invariant when it held. `RestartRepeatsMarker` shows what
happens after a restart: a device gets a second marker.

Clocks and the outcome of I/O are parameters:

- each frame carries the aggregator's clock reading (`Frame.now`) and the
  fate of the message it forwards (`Downstream`);
- the fate is either unreachable, or delivered at the collector's clock
  reading, with or without a successful log append.

An empty frame stands for a zero-byte read. A session that runs out of
frames is still open (`Trace.ended` is false).

## Model

| member | source | states |
|---|---|---|
| Text.Split | AggregatorApp/Program.cs:58 | the split of a frame always has at least one field, and no field contains the separator |
| Text.JoinSplit | AggregatorApp/Program.cs:58 | joining the fields of a split with the separator gives back the frame: the split loses nothing |
| Text.SplitJoin | AggregatorApp/Program.cs:58 | splitting a join of separator-free fields gives back exactly those fields |
| Gateway.Handle | AggregatorApp/Program.cs:58-98 | the reply is the fixed reply of the command named by the first field (AggregatorApp/Program.cs:63-97); the step closes iff the command is `BYE`; it fails iff `HELLO` lacks a second field or `DATA` lacks a third; only `HELLO` changes the device ID; only `DATA` yields a reading, tagged with the current ID |
| Gateway.HelloBindsId | AggregatorApp/Program.cs:58-67 | `HELLO;<id>`, alone or followed by further `;` fields, answers `HELLO_ACK` and rebinds the session to `<id>` from any previous ID, with no reading |
| Gateway.HelloWithoutIdFails | AggregatorApp/Program.cs:65 | `HELLO` without a second field fails the step (the index exception) |
| Gateway.RegisterOnlyAcknowledges | AggregatorApp/Program.cs:69-72 | any `REGISTER` frame answers `REGISTER_ACK` and keeps the ID, with no reading and so no ledger write or forward |
| Gateway.DataYieldsReading | AggregatorApp/Program.cs:74-87 | `DATA;<sensor>;<value>`, alone or followed by further `;` fields, answers `RECEIVED` and yields a reading of exactly that sensor and value under the current ID, for any sensor and value |
| Gateway.DataWithoutValueFails | AggregatorApp/Program.cs:76-77 | `DATA` with one or two fields fails the step |
| Gateway.UnknownCommandAcknowledged | AggregatorApp/Program.cs:94-97 | any other first field answers `ACK` and changes neither the ID nor anything else |
| Gateway.ForwardAccepted | AggregatorApp/Program.cs:83 | every message built by the forward step passes the collector's `AGG_DATA;` filter |
| Gateway.ForwardMessageFields | AggregatorApp/Program.cs:83 | a forwarded message splits back into `AGG_DATA`, the device ID, the sensor and the value |
| Gateway.Forward | AggregatorApp/Program.cs:146-168 | the collector's log becomes what delivering the message makes it: unchanged when the collector is unreachable, otherwise `Logged`; the caller sees no failure |
| Gateway.DeliverAppends | AggregatorApp/Program.cs:146-168 | when every forwarded message carries the `AGG_DATA;` prefix, delivering them only appends to the collector's log: exactly one timestamped line per message that reached the collector and was saved, in order |
| Gateway.DeliverConcat | AggregatorApp/Program.cs:146-168 | delivering two batches of messages one after the other is delivering them together |
| Gateway.EndedIgnoresLaterFrames | AggregatorApp/Program.cs:48-104 | once a session has ended, appending further frames changes neither its replies, nor its ledger writes, nor its forwards |
| Gateway.ByeEndsSession | AggregatorApp/Program.cs:89-92 | a `BYE` frame answers `BYE_ACK` and ends the session with no write and no forward, whatever follows |
| Gateway.EmptyReadEndsSession | AggregatorApp/Program.cs:51-52 | a zero-byte read ends the session with no reply, whatever follows |
| Gateway.FaultEndsSession | AggregatorApp/Program.cs:101-104 | a frame with a missing field ends the session with no reply, no write and no forward, whatever follows |
| Gateway.DataBeforeHello | AggregatorApp/Program.cs:44 | the ID starts empty: a first `DATA` frame is answered `RECEIVED`, written under the empty ID and forwarded as `AGG_DATA;;<sensor>;<value>` |
| Gateway.SessionShape | AggregatorApp/Program.cs:40-105 | a session replies to each frame while open and at most once per frame; each ledger write is matched, in order, by exactly one forwarded message built from it, which the collector accepts; every reply is one of the five fixed replies |
| Gateway.WritesSepFree | AggregatorApp/Program.cs:58-77 | from a `;`-free ID, every ledger write of a session has `;`-free device, sensor and value |
| Gateway.RelayCarriesWrite | AggregatorApp/Program.cs:80-84 | the k-th forwarded message of a session splits back into the fields of its k-th ledger write |
| Gateway.SessionReachesCollector | AggregatorApp/Program.cs:80-86 | everything a session forwards lands in the collector's log after what was there, one line per delivered and saved message |
| Gateway.Serve | AggregatorApp/Program.cs:40-105 | the session loop sends exactly the replies of `Run` and is still open iff `Run` has not ended; the ledgers end as `Replay` of the session's writes and the collector's log as `Deliver` of its forwards, from any starting state; a consistent ledger stays consistent |
| Gateway.Receive | AggregatorApp/Program.cs:50-98 | one frame's outcome is `Handle`'s; a continuing step changes the ledgers by its writes and the log by its forwards, and any other step changes neither |
| Gateway.Record | AggregatorApp/Program.cs:80-84 | a reading is appended to its sensor's ledger as `Appended` says, and its message is delivered as `Collected` says |
| Gateway.StepEffects | AggregatorApp/Program.cs:74-97 | a continuing step without a reading leaves ledgers and log as they are; one with a reading appends one write and delivers one message |
| Gateway.HelloDataBye | AggregatorApp/Program.cs:40-105 | the session `HELLO;<id>`, `DATA;<sensor>;<value>`, `BYE` gets `HELLO_ACK`, `RECEIVED`, `BYE_ACK` and ends; from empty ledgers the sensor's file is then the device's marker followed by one data line with the value |
| Ledger.DataLineFields | AggregatorApp/Program.cs:113 | a data line `<ts>;<id>;<value>` with `;`-free fields splits back into those three fields |
| Ledger.MarkerTextNamesDevice | AggregatorApp/Program.cs:137 | two marker lines have the same text only for the same device |
| Ledger.RenderOneLine | AggregatorApp/Program.cs:113-141 | a marker or data line whose fields hold no `\n` or `\r` appends text holding none, so it is exactly one text line of the file |
| Ledger.MarkerSpansLines | AggregatorApp/Program.cs:137 | a device ID `a ---\n# --- b` is written verbatim, so its one marker append reads as the marker of `a`, a line break, and the marker of `b` |
| Ledger.DataSpansLines | AggregatorApp/Program.cs:113-141 | a value `v\n# --- b ---` is written verbatim, so its one data append reads as the data line with `v`, a line break, and a marker line for `b` |
| Ledger.AppendedEffect | AggregatorApp/Program.cs:108-143 | one write grows its sensor's file, keeping the old file as a prefix, by one data line. A marker for the device comes before it iff the device had not written to the sensor. The device is then recorded; the lock is created if missing and kept otherwise; other sensors' files and registries are unchanged |
| Ledger.AppendKeepsWellFormed | AggregatorApp/Program.cs:129-141 | appending an optional marker (iff the device is new) and a data line keeps a file well formed for the enlarged registry |
| Ledger.NewLockDistinct | AggregatorApp/Program.cs:119-123 | creating the missing lock of a sensor keeps every sensor's lock distinct |
| Ledger.AppendedConsistent | AggregatorApp/Program.cs:118-142 | one write keeps the whole state consistent: the same sensors in the three maps, distinct locks, well-formed files |
| Ledger.ReplayConsistent | AggregatorApp/Program.cs:118-142 | any sequence of writes keeps the state consistent |
| Ledger.ReplayConcat | AggregatorApp/Program.cs:108-143 | writing two batches one after the other is writing them together |
| Ledger.ReplayFileGrowth | AggregatorApp/Program.cs:141 | over any writes a file keeps its old content as a prefix, and its data lines gain exactly the writes to that sensor, in submission order |
| Ledger.ReplaySeen | AggregatorApp/Program.cs:129-133 | over any writes a sensor's registry gains exactly the devices that wrote to it |
| Ledger.ReplayKeepsLock | AggregatorApp/Program.cs:119-123 | a sensor's lock, once created, is never replaced |
| Ledger.MarkerOccurrences | AggregatorApp/Program.cs:132-138 | in a well-formed file a device has exactly one marker if the registry records it, and none otherwise |
| Ledger.LedgerAfterWrites | AggregatorApp/Program.cs:108-143 | from empty ledgers, after any writes, a sensor's file has exactly one marker per device that wrote to it and none for others; every data line comes after its device's marker; the data lines are the writes to that sensor, in order |
| Ledger.LedgerStore.constructor | AggregatorApp/Program.cs:18-21 | at process start the lock map and the registry are empty and the files are those already on disk; the state is consistent exactly when there are no files |
| Ledger.RestartRepeatsMarker | AggregatorApp/Program.cs:129-137 | after a restart (empty registry, files kept) a device whose marker is already in a sensor's file gets a second marker with its next write there, so the file is no longer well formed |
| Ledger.LedgerStore.Append | AggregatorApp/Program.cs:108-143 | from any state, the new state is exactly `Appended` of the old one, and a consistent state stays consistent; the returned flag is true iff the registry did not hold the device for this sensor, i.e. iff a marker was written |
| Collector.LogLineParts | ServerApp/Program.cs:77-78 | a log line is `[`, the timestamp, `] ` and the message copied verbatim, so both can be read back |
| Collector.LoggedGrowth | ServerApp/Program.cs:48-52 | handling a message grows the log by exactly one line holding it iff the message starts with `AGG_DATA;` and the append succeeds; otherwise the log is unchanged; the old log is always kept as a prefix |
| Collector.CentralLog.constructor | ServerApp/Program.cs:74-81 | at process start the log holds the lines already in the log file, which outlives the process; saving only appends to them |
| Collector.CentralLog.HandleClient | ServerApp/Program.cs:33-61 | the reply is always `RECEIVED`, whatever the message and whether saving failed; the log becomes `Logged` of the old log |
| Collector.CentralLog.SaveToFile | ServerApp/Program.cs:64-91 | a successful append adds exactly the timestamped line; a failed one leaves the log as it was and is not reported to the caller |

## Left out

- Sockets, the accept loops, `Send`, UTF-8 decoding and the single 256-byte
  read per frame (AggregatorApp/Program.cs:23-37, 42-54, 171-175;
  ServerApp/Program.cs:10-61) are I/O. Each frame is a given string, and the
  empty string stands for a zero-byte read. A frame longer than 256 bytes
  would be cut by the real reader; the model does not cut it.
- Thread-per-connection and the `lock` statements are not modelled. Ledger
  writes are sequential atomic steps, and sessions do not interleave. The
  lock map is kept only as a map from sensor to the serial number of its
  lock, so that "created at most once" can be stated.
- `DateTime.Now` (AggregatorApp/Program.cs:113; ServerApp/Program.cs:77, 96)
  is a parameter: `Frame.now` for the aggregator and `Delivered.at` for the
  collector. Timestamp formatting is not modelled.
- `Directory.CreateDirectory`, `Directory.Exists` and the file paths are not
  modelled: a ledger file is named by its sensor, and the collector has one
  log. In the code, `Path.Combine` (AggregatorApp/Program.cs:111) can map
  two sensor strings to one file, for example `x` and `./x`, or `Temp` and
  `temp` on a case-insensitive file system. Each of them has its own
  registry entry, so that one file can receive two markers for one device.
  The model keeps one file per sensor string.
- Ledger.LedgerStore.constructor: the consistency results (`Consistent`,
  `MarkerOccurrences`, `LedgerAfterWrites`, one marker per device and
  sensor) cover one run that starts from an empty ledger folder. After a
  restart, or with files already on disk, a device's next write to a
  sensor whose file already holds its marker adds a second marker
  (`RestartRepeatsMarker`). `Append` and `Serve` still model that case
  exactly, through `Appended` and `Replay`.
- A ledger file is modelled as a sequence of appends (`Line`s), each one
  `File.AppendAllText` call followed by `Environment.NewLine`; the
  terminator itself is not modelled. `Ledger.Render` gives an append's text,
  which is one text line only when its fields hold no line break
  (`RenderOneLine`). The device ID and the value come verbatim from the
  frame, so they may hold line breaks.
- Ledger.MarkerOccurrences: "exactly one marker per recorded device" counts
  marker appends, not text lines of the file. The frames `HELLO;A ---\n# --- B`
  then `DATA;T;1` append one marker for the ID `A ---\n# --- B`, whose text
  is the two lines `# --- A ---` and `# --- B ---` (`MarkerSpansLines`);
  device `B`'s first write then adds a second `# --- B ---` text line.
- Ledger.LedgerAfterWrites: the same holds. Markers and data lines are
  counted as appends; a value such as `1\n# --- B ---` makes one data append
  span two text lines, the second of which reads as a marker
  (`DataSpansLines`). When no ID or value holds a line break, appends and
  text lines coincide (`RenderOneLine`) and the statement holds of text
  lines.
- A failed ledger append (`File.AppendAllText` throwing inside `GravarEmCsv`)
  is not modelled; the model assumes these appends succeed. In the code the
  exception ends the session (AggregatorApp/Program.cs:101-104), and a
  failed marker append leaves the device in the seen-writers registry with
  no marker in the file. The frame alone can cause the failure, not only
  the environment. The file path is `Path.Combine("sensores", sensor +
  ".csv")` (AggregatorApp/Program.cs:111), and only `sensores` is created
  (AggregatorApp/Program.cs:116). So `DATA;a/b;1` names `sensores/a/b.csv`,
  whose directory does not exist, and the append throws. The code then
  ends the session with no `RECEIVED` and no forward. The registry already
  holds the device and the lock map the sensor. The model instead answers
  `RECEIVED`, writes the reading and forwards it.
- Ledger.LedgerStore.Append: this does not model the two separate lock
  regions, the lock creation and the registry-and-file update. Without
  threads they behave as one step. With threads the code is not safe: the
  registry `wavysPorSensor` gets a sensor's new key
  (AggregatorApp/Program.cs:129-130) under only that sensor's lock, and the
  lock map `locksPorSensor` is read (AggregatorApp/Program.cs:126) outside
  the lock that guards it, so first writes to two different sensors can
  touch one non-thread-safe `Dictionary` at the same time.
- `EnviarParaServidor`'s network delivery is reduced to the `Downstream`
  fate. The collector's reply, which the aggregator only prints, is not
  modelled.
- Collector.Accepts: `String.StartsWith(string)` in .NET compares using the
  current culture; the model uses an ordinal prefix test. The two differ.
  With ICU, the default on .NET 5 and later, the culture-sensitive test
  skips ignorable code points, so `"\u0000AGG_DATA;x"` passes the
  collector's filter but not `Collector.Accepts`.
- Collector.LoggedGrowth: the "iff" and the unchanged log are stated for the
  ordinal filter. A message that starts with ignorable code points before
  `AGG_DATA;` is logged by the code, not by the model.
- Collector.LoggedGrowth: "one line per message" counts appends to the log,
  not text lines. The message is written verbatim (ServerApp/Program.cs:78,
  81), so a forwarded value holding a line break is logged as several text
  lines, only the first of which carries the timestamp.
- Gateway.ForwardAccepted: stated for the ordinal filter. The model does not
  decide whether the culture-sensitive filter accepts a forwarded message
  whose device ID begins with a combining character. For IDs of ASCII
  characters the two filters agree.
- Gateway.SessionReachesCollector: the collector reads at most 256 bytes of
  a message (ServerApp/Program.cs:38-42). A forwarded
  `AGG_DATA;<id>;<sensor>;<value>` can be longer even when every device
  frame fits in 256 bytes, because the ID comes from an earlier `HELLO`
  frame. Such a message is logged cut short, not as the one full line the
  model adds.
- Gateway.DeliverAppends: the same 256-byte read applies; the model logs
  every delivered message whole.
- Console logging (`Console.WriteLine` and the collector's `Log`) is not
  modelled; it has no effect on the state.
- Gateway.Serve: the contract does not state that the ledger write happens
  before the forward. The two touch separate state, so the order shows only
  in the body of `Record`.
- The device clients, the gRPC preprocessing service, the message-queue
  consumer and the web dashboard are other programs and are not part of
  this model.
