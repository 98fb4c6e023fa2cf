# Verified models of kettlingar-go

A Dafny model of the stateful and arithmetic parts of kettlingar-go, with proofs about them. `dafny verify dfyconfig.toml` checks everything, and so does `dafny verify --warn-contradictory-assumptions dfyconfig.toml`.

| files | what they model |
|---|---|
| `Msgpack.dfy`, `MsgpackComplete.dfy`, `MsgpackSound.dfy`, `MsgpackCut.dfy`, `MsgpackConverter.dfy`, `MsgpackExamples.dfy` | the MessagePack-to-JSON converter: the legal wire encodings of a value as a relation, the decoder as a function, both directions of its correctness, inputs that end inside a value, the imperative decoder over a reader, a writer and byte buffers, and inputs and outputs spelled out |
| `Json.dfy`, `JsonRoundTrip.dfy`, `QuoteRoundTrip.dfy` | a JSON parser and what it makes of rendered values; a reader of Go string literals and what it makes of quoted strings |
| `Framing.dfy`, `EventStream.dfy` | the generator's stream, newline-delimited JSON or server-sent events, the client that splits it, and a reader of event streams as their standard has it |
| `SubscriberLevels.dfy`, `LogModel.dfy`, `LogProofs.dfy`, `LogHandlers.dfy`, `LogSimulation.dfy` | the log fan-out: a step system with one step per critical section of the hub's mutex, its properties over every run, the handlers, hub and service object changed in place, and the proof that these objects refine the step system |
| `ConfigKeys.dfy`, `ConfigReadings.dfy`, `ConfigRuns.dfy` | the change-detection key of a log configuration, the resolved configurations that can be read off it, and which settings are in force after a run |
| `RotationModel.dfy`, `RotationDisk.dfy`, `RotatingWriter.dfy` | the rotating log writer on values, name by name on the disk, and as renames and removals on a file system |
| `MetricsHistogram.dfy`, `MetricsKeys.dfy`, `MetricFamilies.dfy`, `Metrics.dfy`, `MetricLines.dfy`, `MetricsExample.dfy`, `RpcAccounting.dfy` | histograms, series keys, metric families, the registry and its renderer, the text line by line, a scrape spelled out, and the two updates every call makes |
| `Readiness.dfy` | the background-start handshake between parent and child |
| `Basics.dfy`, `Sequences.dfy` | optional values and parse results; regrouping of concatenations |

Wherever the code works by changing things step by step, a class or a method with a loop does the same, and its contract ties it to a function on values; the lemmas are about those functions and about runs of them. Time, the text of `%g`, RFC 3339 times and `%q` on non-ASCII bytes, and whether a log destination can be opened, are parameters. One `char` of rendered text stands for one output byte.

Where the code and its own words part, the model follows the code:

- The converter is said to read the whole stream (kettlingar/msgpack_to_json.go:26), but no error is reported when the input ends where more was announced, nor when it ends inside a number or length, whose missing bytes then count as zeros: `MsgpackCut.CutNumberPrints` says what a cut number prints, `MsgpackCut.CutIntExactly` when that is still the right one, and the front of an encoding of 258 prints 256 (`MsgpackCut.CutIntChanges`). `MsgpackCut.SilentExactly` says for every input when no error is right and when it is not; `MsgpackSound.CutArrayIsSilent` and `MsgpackCut.CutStringIsSilent` are examples.
- A timestamp is printed as a quoted string (kettlingar/msgpack_to_json.go:215); the test at kettlingar/msgpack_to_json_test.go:132 expects it bare.
- `FileConfig` says that zero `MaxBackups` disables that limit (kettlingar/logging/logging.go:74-75); on the disk, whatever is written, no backup but the first is ever kept (`RotationDisk.ZeroBackupsKeepOne`), and `RotationDisk.ZeroBackupsLoseOne` is a run of three writes that loses one.
- Later `ConfigureLogging` calls are said to act when the settings changed (kettlingar/logging.go:66-72). They compare keys that join the resolved settings with bars. `ConfigRuns.InForceExactly` says, over all runs of resolved settings, after a call with which of them the base is sure to be built from them; `ConfigRuns.InEffectExactly` after which it is sure to be what they ask for, as some settings are of no use to some destinations (`ConfigRuns.FileAlikeExactly` and `ConfigRuns.SyslogAlikeExactly` spell that out). `ConfigRuns.UnnoticedFile` is a change of the log file that goes unnoticed.
- The renderer repeats a family's header when a longer family name sorts between its series, and has none for the empty name in front (`Metrics.FamiliesRendered`, `Metrics.SplitFamilyExample`).
- Help texts and names are not escaped as label values are (kettlingar/metrics.go:80-83): `MetricLines.LinesExactly` says when the text has other lines than were meant, and `MetricLines.ForgedHeader` is a help text that announces a family that does not exist.

Two things that are as announced: the bootstrap buffer evicts its oldest records (kettlingar/logging/buffer.go:22-24) whatever their level, and `LogProofs.ReplayIsComplete` says when the replay misses some for it; and the nanoseconds of a timestamp are passed on up to the width of their field, though the MessagePack specification allows 999999999 at most, so the encodings called legal here include those.

## Model

| member | source | states |
|---|---|---|
| MsgpackComplete.DecodesEncoding | kettlingar/msgpack_to_json.go:40-259 | Every legal encoding of a value (all fix, 8, 16, 32 and 64 bit forms, two's complement, the three timestamp layouts under any extension header), followed by any bytes, is decoded to that value's text and leaves exactly those bytes. |
| MsgpackComplete.EncodingsArePrefixFree | kettlingar/msgpack_to_json.go:40-137 | No legal encoding is a proper prefix of another, and equal encodings have equal text. |
| MsgpackComplete.ConvertsStream | kettlingar/msgpack_to_json.go:27-38 | Encodings at the front of a stream become one line each, in order, whatever follows them. |
| MsgpackComplete.ConvertsWholeStream | kettlingar/msgpack_to_json.go:27-38 | A stream of encodings converts without error to one line per value. |
| MsgpackSound.Explained | kettlingar/msgpack_to_json.go:40-259 | Whenever decoding succeeds, on any bytes, the consumed bytes are a legal encoding of some value whose text was written, where only zero bytes past the end of the input may be missing. |
| MsgpackCut.DecodesExactlyEncodings | kettlingar/msgpack_to_json.go:40-259 | Decoding succeeds with a text and a rest if and only if a legal encoding with that text stands before that rest, or nothing is left and the input is such an encoding without its last bytes, zeros that belong to a number or a length; never both. |
| MsgpackCut.EndsExactlyWhenOpen | kettlingar/msgpack_to_json.go:40-259 | A value that has begun ends in an end of input if and only if the input stops where more was announced and none of it is there, at any depth. |
| MsgpackCut.SilentExactly | kettlingar/msgpack_to_json.go:27-38 | Conversion reports no error if and only if the input is a stream of whole encodings, or such a stream followed by a value that stops at one of those places or lacks only zeros of a number or length; never both. |
| MsgpackSound.ConvertExplained | kettlingar/msgpack_to_json.go:27-38 | On any bytes, the output is the lines of the encodings at the front followed by what the first undecodable value wrote, and the error is that value's. |
| MsgpackSound.CutArrayIsSilent | kettlingar/msgpack_to_json.go:29-32 | An array announcing more elements than the stream has is reported as success, with an unfinished line. |
| MsgpackCut.CutStringIsSilent | kettlingar/msgpack_to_json.go:29-32 | A string header alone is reported as success, with no text. |
| MsgpackCut.CutNumberPrints | kettlingar/msgpack_to_json.go:224-243 | An integer or float cut anywhere after its first byte decodes without error to the number with zeros for what is missing. |
| MsgpackCut.CutIntExactly | kettlingar/msgpack_to_json.go:224-243 | An integer cut anywhere prints its own text if and only if only zeros were cut off. |
| MsgpackCut.CutIntChanges | kettlingar/msgpack_to_json.go:224-243 | The first two bytes of an encoding of 258 convert to 256, with no error. |
| MsgpackConverter.MsgpackJsonConverter.Convert | kettlingar/msgpack_to_json.go:27-38 | The loop terminates on every input and writes what the stream function says; the caller gets nil exactly for an end of input. |
| MsgpackConverter.MsgpackJsonConverter.DecodeNext | kettlingar/msgpack_to_json.go:40-137 | The decoder on reader and writer writes, consumes and returns what the decoding function says, on every byte string, and terminates. |
| MsgpackConverter.MsgpackJsonConverter.DecodeScalar | kettlingar/msgpack_to_json.go:65-93 | The cases of nil, booleans, floats and sized integers: each reads its own width and prints the number with its own sign. |
| MsgpackConverter.MsgpackJsonConverter.DecodeSized | kettlingar/msgpack_to_json.go:95-116 | The cases of sized strings, arrays, maps and binaries: each reads its own width and decodes a body of that size. |
| MsgpackConverter.MsgpackJsonConverter.DecodeExtended | kettlingar/msgpack_to_json.go:118-127 | The extension cases, with a fixed size or a size to be read. |
| MsgpackConverter.MsgpackJsonConverter.PrintStr | kettlingar/msgpack_to_json.go:171-178 | Prints the quoted string, or fails with the right end-of-input error having used up the input. |
| MsgpackConverter.MsgpackJsonConverter.PrintBin | kettlingar/msgpack_to_json.go:252-259 | The same in hex. |
| MsgpackConverter.MsgpackJsonConverter.DecodeArray | kettlingar/msgpack_to_json.go:139-151 | The element loop writes the bracketed elements, or stops at the first failing one with what was written so far. |
| MsgpackConverter.MsgpackJsonConverter.DecodeMap | kettlingar/msgpack_to_json.go:153-169 | The same for keys and values. |
| MsgpackConverter.MsgpackJsonConverter.DecodeExtension | kettlingar/msgpack_to_json.go:180-221 | Type and data are read through buffers; timestamps of 4, 8 and 12 bytes are split into seconds and nanoseconds, other sizes are an error, other types print a label and hex. |
| MsgpackConverter.MsgpackJsonConverter.ReadUint | kettlingar/msgpack_to_json.go:224-243 | A big-endian number of a given width; missing bytes read as zero. |
| MsgpackExamples.Nested | kettlingar/msgpack_to_json.go:139-169 | A map of a number and a list, byte by byte and character by character. |
| MsgpackExamples.Coffee | kettlingar/msgpack_to_json.go:180-221 | An extension whose type has a name. |
| MsgpackExamples.Numbers | kettlingar/msgpack_to_json.go:83-93 | Signed and unsigned numbers of one and two bytes. |
| MsgpackExamples.Timestamps | kettlingar/msgpack_to_json.go:199-213 | The seconds and nanoseconds of the three layouts. |
| MsgpackExamples.OddTimestamp | kettlingar/msgpack_to_json.go:210-212 | Any other size of a timestamp is an error. |
| MsgpackExamples.CutMaps | kettlingar/msgpack_to_json.go:153-169 | What was written of a map that is cut before a value or between entries. |
| JsonRoundTrip.ParsesRendering | kettlingar/msgpack_to_json.go:50-69 | For every nested value without floats, the parser recovers its meaning from its text, before any text that does not continue a number, exactly when all strings use characters that `%q` writes the JSON way and all map keys are strings; otherwise parsing fails. |
| JsonRoundTrip.QuoteParses | kettlingar/msgpack_to_json.go:171-178 | A quoted string parses back to itself exactly when JSON has an escape for every character of it that needs one. |
| JsonRoundTrip.RenderingIsJson | kettlingar/msgpack_to_json.go:139-178 | The same for a whole JSON text. |
| JsonRoundTrip.HexReads | kettlingar/msgpack_to_json.go:252-259 | Bytes in hex read back as themselves, two digits each, the high one first. |
| JsonRoundTrip.RenderAlike | kettlingar/msgpack_to_json.go:139-178 | Two nil, boolean, integer, string, binary, array and map values, keyed by strings or binary data, have the same text if and only if they are equal but for strings that read as the other's binary data. |
| JsonRoundTrip.RenderInjective | kettlingar/msgpack_to_json.go:139-178 | Two such values without binary data, or without strings, that have the same text are the same value. |
| QuoteRoundTrip.QuoteUnquotes | kettlingar/msgpack_to_json.go:171-178 | A quoted string reads back, as a Go literal, as its own bytes, whatever they are. |
| QuoteRoundTrip.EscapeLength | kettlingar/msgpack_to_json.go:171-178 | Printable characters stand for themselves, but for quote and backslash; the seven control characters with an escape of their own take two characters, the others four. |
| Framing.RenderOneLine | kettlingar/msgpack_to_json.go:50-221 | No value's text is blank or has a line break. |
| Framing.Server.ForgivingJson | kettlingar/service.go:572-588 | The converted text of encoded bytes, or nothing when they cannot be converted. |
| Framing.Server.HandleGenerator | kettlingar/service.go:477-529 | What was written reads, line by line, as each value's text followed by a blank line, in order, or, for server-sent events, as one event for each value, in order, with its text as the data. |
| Framing.Scanner.Scan | kettlingar/default_main.go:843-858 | A line of at most 8 MiB, its newline included, is returned without its line end; a longer one ends the scan. |
| Framing.DoCall | kettlingar/default_main.go:843-858 | The scanning loop prints exactly the data lines (server-sent events) or the non-blank lines. |
| Framing.LineCounts | kettlingar/default_main.go:843-858 | Of any lines, each that begins with the data prefix is printed without it and no other (server-sent events), or each that is not blank and no other. |
| Framing.CarriageReturn | kettlingar/default_main.go:843-858 | A carriage return right before the newline is not part of the line. |
| Framing.StreamDelivered | kettlingar/default_main.go:843-858 | The client prints exactly the texts that were sent, in order, up to the first whose line does not fit its buffer. |
| Framing.FramingRoundTrip | kettlingar/service.go:504-510 | For all values and both formats, what was sent is what is printed if and only if every line fits in 8 MiB. |
| LogProofs.HandOver | kettlingar/logtee/logtee.go:87-147 | After any interleaving: before the first swap the buffer holds the last 2048 admitted records and the evictions are counted; after it the sinks, one after the other, hold exactly those of the kept records at or above the configured level and then every record admitted since, in lock order, and neither the buffer nor the console gets any more. |
| LogProofs.EachSinkGets | kettlingar/logtee/logtee.go:75-147 | After any interleaving, each sink got exactly the records admitted between its swap and the next, in lock order, and the first of them the replay before. |
| LogProofs.ReplayIsComplete | kettlingar/logging/buffer.go:22-49 | After any run with a swap, the sinks hold every record admitted before the first swap at or above its level and then every later one, if and only if all but the last 2048 of those before it were below that level. |
| LogProofs.ReplayLosesOne | kettlingar/logging/buffer.go:22-49 | A run that logs 2049 records of the configured level before the first swap: the sink has 2048. |
| LogProofs.FeedsAccounted | kettlingar/logtee/logtee.go:118-136 | After any interleaving, for every subscription: received and queued records are in order a subsequence of the matching records between subscribing and closing, drops make up the difference, and the queue is at most 256. |
| LogProofs.DropsOnlyWhenBehind | kettlingar/logtee/logtee.go:131-135 | A subscription has dropped nothing if and only if its reader was never more than 256 matching records behind. |
| LogProofs.NothingLostWhenKeptUp | kettlingar/logtee/logtee.go:131-135 | Then received and queued records are all the matching ones. |
| LogProofs.SinksClosedOnce | kettlingar/logging.go:83-105 | After any interleaving the base is an open sink, every replaced sink is closed exactly once and only after it was replaced, and so nothing is written to a closed sink. |
| ConfigKeys.OwnKeyExactly | kettlingar/logging.go:160-165 | Of the key function alone, resolved or not: no other configuration has the key of c if and only if target, format, address, facility and tag of c have no bar and its path, cut at its bars, has nothing in it that reads as a level and a flag, or as three limits and a flag. |
| ConfigReadings.ResolvedExactly | kettlingar/logging.go:139-212 | The configurations that settings can resolve to are those with a concrete format and target and, for a file, a path. |
| ConfigReadings.Resolving | kettlingar/logging.go:139-212 | An explicit format stays, and otherwise follows the destination and the terminal; no target means a file, which without a name is stderr; nothing else changes. |
| ConfigReadings.ReadHasKey | kettlingar/logging.go:160-165 | Whatever configuration is read off the key of c, at places that hold what they must, has that key. |
| ConfigReadings.SameKeyIsRead | kettlingar/logging.go:160-165 | And every configuration with that key, and a format, is read off it in this way. |
| ConfigReadings.ResolvedKeyExactly | kettlingar/logging.go:139-165 | No other resolved configuration has the key of c if and only if address, facility and tag have no bar, and in path and target there is nothing, between bars, that reads as a format, a level and a flag, nor in the path as three limits and a flag, with something of its own before it. |
| ConfigRuns.InForceExactly | kettlingar/logging.go:73-106 | In every run of resolved configurations, each opening or not as its destination allows, in which c was configured last and the call has returned, the base was built from c or its stderr fallback, if and only if c is one of those. |
| ConfigRuns.InEffectExactly | kettlingar/logging.go:73-106 | In every such run the base was built for settings that ask for the same destination, with the same settings that it uses, and level as c, if and only if every resolved configuration that can be read off the key of c asks for that. |
| ConfigRuns.AskedExactly | kettlingar/logging/logging.go:92-118 | Two configurations for one kind of destination ask for the same if and only if the settings that it uses agree. |
| ConfigRuns.FacilityExamples | kettlingar/logging/syslog_unix.go:82-109 | Facility names with space and capitals, none, and an unknown one. |
| ConfigRuns.KeyExample | kettlingar/logging.go:160-165 | A key spelled out. |
| ConfigRuns.FileAlikeExactly | kettlingar/logging/logging.go:92-118 | For a log file that is so if and only if there is no format, level and flag in a row inside the path, and no three limits and a flag anywhere behind the first piece of the path but where they belong. |
| ConfigRuns.SyslogAlikeExactly | kettlingar/logging/syslog_unix.go:17-109 | For a syslog with a known facility it is so if and only if no other resolved configuration has the key. |
| ConfigRuns.UnnoticedFile | kettlingar/logging.go:73-106 | A run of two calls with two log files and one key, after which the first file is still the base. |
| ConfigRuns.BaseFromLatestConfig | kettlingar/logging.go:73-106 | After any interleaving, between ConfigureLogging calls, if no other resolved configuration has the key of the latest settings, the base was built from them or their stderr fallback, whatever was configured before. |
| LogProofs.MinSubCached | kettlingar/logtee/logtee.go:225-233 | The cached level is always the least of 127 and the open subscriptions' levels. |
| LogProofs.EnabledIsExact | kettlingar/logtee/logtee.go:110-116 | Enabled admits a level if and only if the base or an open subscription takes records of that level, or the level is 127 or more. |
| LogHandlers.BufferHandler.Handle | kettlingar/logging/buffer.go:35-49 | The in-place shift drops the oldest record and counts it, or the record is appended, or ignored once closed. |
| LogHandlers.BufferHandler.Drain | kettlingar/logging/buffer.go:58-65 | Returns everything captured, in order, and closes the buffer. |
| LogHandlers.Hub.Handle | kettlingar/logtee/logtee.go:118-147 | Each open subscription gets the record if its level is high enough and it is for all or is the one of the call's context, or counts a drop when 256 are queued, and is left alone otherwise; the base is written exactly when the level admits it. |
| LogHandlers.Hub.Deliver | kettlingar/logtee/logtee.go:122-136 | The loop over the subscriptions alone. |
| LogHandlers.Subscription.Consider | kettlingar/logtee/logtee.go:122-136 | One turn of that loop: sends the record unless it is below the level or meant for another subscription. |
| LogHandlers.Subscription.TrySend | kettlingar/logtee/logtee.go:131-135 | Queues the record, or counts a drop when 256 are queued. |
| LogHandlers.Hub.WriteBase | kettlingar/logging/buffer.go:91-98 | The tee captures every record and passes those at WARN or above to the console. |
| LogHandlers.Hub.Enabled | kettlingar/logtee/logtee.go:110-116 | The cached comparison gives the answer a look at every subscription would give. |
| LogHandlers.Hub.RecomputeMin | kettlingar/logtee/logtee.go:225-233 | The loop finds the least level. |
| LogHandlers.Hub.Add | kettlingar/logtee/logtee.go:200-208 | A new subscription under the next number, with the cached level brought up to date. |
| LogHandlers.Hub.CloseSub | kettlingar/logtee/logtee.go:212-220 | Removes and closes a subscription once; a repeated call changes nothing. |
| LogHandlers.Hub.SetBase | kettlingar/logtee/logtee.go:75-79 | Swaps the base and leaves subscriptions and level alone. |
| LogHandlers.Hub.SetLevel | kettlingar/logtee/logtee.go:70 | Sets the level and nothing else. |
| LogHandlers.Hub.SetBaseFlushing | kettlingar/logtee/logtee.go:87-97 | The new base gets the drained records at or above the minimum, in order, and the buffer is closed. |
| LogHandlers.KettlingarService.InstallLogging | kettlingar/logging.go:39-55 | Sets up an empty buffer of 2048 records and the console as base, once. |
| LogHandlers.KettlingarService.SwapBase | kettlingar/logging.go:89-99 | The first swap replays the drained buffer at the configured level, a later one only swaps; then the level is set. |
| LogHandlers.KettlingarService.ConfigureLogging | kettlingar/logging.go:73-106 | Nothing for an unchanged key; otherwise the new sink is the base at the new level, with the replay on the first call only, and the old sink is closed once. When the destination cannot be opened, the warning goes first to the subscribers and the old base, and from the bootstrap buffer to the new sink. |
| LogHandlers.KettlingarService.OpenSink | kettlingar/logging.go:83-88 | The sink of the configuration or of stderr, with the warning logged in the second case. |
| LogHandlers.Hub.Log | kettlingar/logtee/logtee.go:110-147 | Asking Enabled first makes no difference to what a logged record does. |
| LogSimulation.SimulateHandle | kettlingar/logtee/logtee.go:118-147 | From objects in a state of the step system, a log call leads to objects in the state after its step, whose context is the subscription given, if that is open, and none otherwise. |
| LogSimulation.SimulateConfigure | kettlingar/logging.go:73-106 | So does a whole ConfigureLogging call, whose steps are all possible, whether or not the destination opens. |
| LogSimulation.SimulateSubscribe | kettlingar/logtee/logtee.go:200-208 | So does subscribing. |
| LogSimulation.SimulateUnsubscribe | kettlingar/logtee/logtee.go:212-220 | So does closing a subscription, once or again. |
| LogSimulation.Begin | kettlingar/logging.go:39-55 | Installing the bootstrap logging leads to the initial state. |
| RotationModel.StoredIsSuffix | kettlingar/logging/rotate.go:55-142 | After any writes under a clock that does not go back, the backups, oldest first, and the live file hold a tail of everything ever written, cut between two writes. |
| RotationModel.OrderedAfter | kettlingar/logging/rotate.go:82-107 | After any such writes the backups are still in order of time, which is what makes pruning by age safe. |
| RotationModel.PruneCutsOldEnd | kettlingar/logging/rotate.go:120-142 | Pruning by age removes backups only from the old end. |
| RotationModel.SizesHold | kettlingar/logging/rotate.go:55-66 | No file of this run exceeds the limit unless only its last write is non-empty, and each rotated file and the next newer one together exceed it. |
| RotationModel.RetainsAtLeast | kettlingar/logging/rotate.go:55-107 | Once this run filled all N slots, the files hold more than floor((N+1)/2) times the limit. |
| RotationModel.RetainsAtMost | kettlingar/logging/rotate.go:55-107 | Once the inherited file is gone and no write exceeds the limit, they hold at most N+1 times the limit. |
| RotationModel.Retention | kettlingar/logging/rotate.go:55-142 | After any writes, with any limits, the slots are exactly the newest of all backups there ever were, less those expired at the last rotation, and the live file is that of a writer that removes nothing. |
| RotationModel.LosesNothingExactly | kettlingar/logging/rotate.go:55-142 | Everything ever written is still there if and only if each backup dropped for its number or its age was empty. |
| RotationModel.LosesNothingByNumber | kettlingar/logging/rotate.go:82-107 | Without an age limit: if and only if no more files were rotated than there are slots and the inherited backups they pushed out were empty. |
| RotationDisk.LeadsToShelf | kettlingar/logging/rotate.go:55-107 | Any run of writes on a disk, name by name, is the run on values. |
| RotationDisk.ZeroBackupsKeepOne | kettlingar/logging/rotate.go:88-104 | With a limit of zero, after any writes, the log is the live file, the first backup is the last file rotated, and every other name has what it had, where the age limit, if any, takes away what had expired at the last rotation. |
| RotationDisk.ZeroBackupsLoseOne | kettlingar/logging/rotate.go:88-104 | Three writes with a limit of zero, of which the first is gone. |
| RotationDisk.LosesNothingOnDisk | kettlingar/logging/rotate.go:82-107 | The exact condition for losing nothing, on the disk; a limit of zero counts as one. |
| RotationDisk.OthersUntouched | kettlingar/logging/rotate.go:82-142 | No run changes a name other than the log, the backups within the limit and, when compressing, the first uncompressed one, except by removing it for its age. |
| RotationDisk.AgesExactly | kettlingar/logging/rotate.go:120-142 | After any run with a rotation, a backup within the limit by number is there if and only if no age is given or it was last written no more than that many days, of 86400 seconds, before the last rotation. |
| RotationDisk.LiveTime | kettlingar/logging/rotate.go:82-107 | When each file was last written, as the run tells. |
| RotationDisk.AgeExample | kettlingar/logging/rotate.go:120-142 | At a limit of 30 days, a rotation keeps a backup of an hour and one of 30 days and removes one of 31. |
| RotatingWriter.RotatingWriter.Write | kettlingar/logging/rotate.go:55-66 | Rotates when the write would exceed the limit, then appends: what every name on the disk holds afterwards, and so the write on values; the size field is the live file's length. |
| RotatingWriter.RotatingWriter.Open | kettlingar/logging/rotate.go:37-53 | Appends to the log if there is one, creates it otherwise, and takes over its length. |
| RotatingWriter.RotatingWriter.Rotate | kettlingar/logging/rotate.go:82-107 | Shift, move or compress, prune and reopen come to the rotation of every name on the disk, and of the values, with and without compression. |
| RotatingWriter.RotatingWriter.ShiftBackups | kettlingar/logging/rotate.go:88-93 | The descending renames equal a simultaneous shift, and touch no other file. |
| RotatingWriter.RotatingWriter.MoveLive | kettlingar/logging/rotate.go:94-104 | The log becomes the first backup and nothing else changes, but for an uncompressed first backup when compressing. |
| RotatingWriter.RotatingWriter.PruneAge | kettlingar/logging/rotate.go:120-142 | The directory loop removes exactly the backups last written more than the given number of days, of 86400 seconds, ago, never the log itself. |
| RotatingWriter.RotatingWriter.constructor | kettlingar/logging/rotate.go:27-33 | The size limit is in units of 2^20 bytes; the log is opened or created. |
| MetricsHistogram.SlotsCount | kettlingar/metrics.go:130-156 | After any samples: slot 1 is their sum, slots 2 to 18 count the samples at most 2^(i+3), those of 0 only from some slot on, slot 19 all of them, each modulo 2^64. |
| MetricsHistogram.BucketIs | kettlingar/metrics.go:131-151 | A sample above 0 is counted from the first slot whose bound it does not exceed, at least 2 and at most 19. |
| MetricsHistogram.SamplesAreCumulative | kettlingar/metrics.go:130-156 | Below 2^64 samples the counters never decrease from slot to slot. |
| MetricsHistogram.SparseIsLossless | kettlingar/metrics.go:286-308 | Every counter left out by the printer is the last printed one before it, or zero. |
| MetricsHistogram.PrintedExactly | kettlingar/metrics.go:286-308 | A counter is printed if and only if it is not zero and is the last, or differs from the one before it, or is not the total yet, or is the first that is not zero. |
| MetricsHistogram.TotalPrintedOnce | kettlingar/metrics.go:292-308 | The total is printed once, last, exactly when it is not zero. |
| MetricsKeys.KeyWithLabels | kettlingar/metrics.go:65-77 | The key is that of the sorted labels, whatever order the map is walked in. |
| MetricsKeys.KeyParses | kettlingar/metrics.go:65-83 | An unescaping parser takes a key apart into its name and sorted labels, for arbitrary label values. |
| MetricsKeys.KeyInjective | kettlingar/metrics.go:65-83 | Different names or label sets have different keys. |
| MetricsKeys.AddLabelAppends | kettlingar/metrics.go:203-209 | The label is added after the others exactly when the key has labels or its name does not end in a brace. |
| MetricFamilies.SortedKeysGrouped | kettlingar/metrics.go:248-279 | Sorting puts the series of each family together if and only if no family is split by a longer name between its bare and its labelled series. |
| MetricFamilies.OneHeaderPerFamily | kettlingar/metrics.go:252-268 | For any keys, the header loop repeats no header if and only if no family with a name is so split. |
| Metrics.FamiliesRendered | kettlingar/metrics.go:248-279 | For any keys: every series is rendered once, in order; all stand below a header of their own family, with no other header between, if and only if the first in order has a name; and headers are unique exactly under that condition. |
| Metrics.ItemsShape | kettlingar/metrics.go:252-279 | Whatever the keys, the loop emits each once, in order, and the headers of their families; each stands under its own unless the first have the empty name, which is announced only after another. |
| Metrics.SplitFamilyExample | kettlingar/metrics.go:248-279 | Three series for which a header is repeated. |
| MetricLines.LinesExactly | kettlingar/metrics.go:252-317 | The text is two lines for each header and one for each sample; split at line ends it gives back exactly these if and only if no key and no emitted help text has a line end. |
| MetricLines.ForgedHeader | kettlingar/metrics.go:261-267 | A registry of one counter whose help text makes the output announce another family. |
| Metrics.Store.Count | kettlingar/metrics.go:109-118 | Adds to the counter of this name and these labels, modulo 2^64, and no other. |
| Metrics.Store.SetHelp | kettlingar/metrics.go:86-91 | Sets the help text of this family, and of no other. |
| Metrics.Store.SetInfo | kettlingar/metrics.go:93-99 | Sets the value under the key of this name and these labels, and no other. |
| Metrics.Store.SetGauge | kettlingar/metrics.go:101-107 | The same for gauges. |
| Metrics.Store.Sample | kettlingar/metrics.go:130-156 | The loop over the slots adds one sample to this histogram, made if need be, and no other. |
| Metrics.RenderHistogram | kettlingar/metrics.go:286-317 | The loop prints the counters of the sparse rendering, with their bounds, the count, the sum and the time of creation. |
| Metrics.RenderKeys | kettlingar/metrics.go:248-279 | The loop over the sorted keys emits the items of the family rendering. |
| Metrics.RenderOpenMetrics | kettlingar/metrics.go:211-284 | The series rendered are exactly those of the two stores: each is of the last kind, of info, counter, gauge and histogram, that either store has under its key, with the value of the private store where it has one and of the public one otherwise; help texts likewise. |
| MetricsExample.ExampleScrape | kettlingar/metrics.go:211-317 | The lines for an info, a labelled counter with a help text, a histogram and a gauge, spelled out. |
| MetricsExample.SampledTwice | kettlingar/metrics.go:130-156 | The slots after samples of 40 and 100, spelled out. |
| RpcAccounting.CallsAreTimed | kettlingar/service.go:364-391 | Over every interleaving of handlers, and of a service's own metrics under other names, for each label set of a method that is not a generator, the call counter is ahead of the timed calls by exactly the handlers between their two updates. |
| RpcAccounting.CallsAreAccounted | kettlingar/service.go:364-391 | Over every interleaving, for each label set, the call counter is the number of calls counted modulo 2^64, and the histogram is that of exactly the durations sampled. |
| Readiness.StartedMeansReady | kettlingar/default_main.go:541-653 | Over every interleaving, crash and partial write, the parent reports success only if the startup hooks ran and the listener was bound. |
| Readiness.ParentCanDecide | kettlingar/default_main.go:617-653 | Once the child has exited or is running, the waiting parent is at the end of the pipe, and in the latter case reads success; the timeout is always possible. |
| Readiness.FullStatusDecides | kettlingar/default_main.go:637-648 | A complete status reads as success exactly when it is OK, and an error is reported in its own words. |
| Readiness.ParentIsTold | kettlingar/default_main.go:617-675 | Over every run in which the child closed the pipe, the parent that reads says that the service has started if no step of the child failed, and otherwise what failed, in the error's own words. |
| Readiness.ParentSeesExit | kettlingar/default_main.go:649-652 | Without a status, the parent says that the service exited. |
| Readiness.ServesAfterOk | kettlingar/default_main.go:541-600 | Having closed the pipe, the child serves if it reported OK and has exited otherwise. |
| Readiness.StartExample | kettlingar/default_main.go:541-675 | A start that succeeds, step by step. |
| Readiness.SignalledOnce | kettlingar/default_main.go:659-675 | No step changes a status once signalled. |
| Readiness.ReadyPipe.SignalReady | kettlingar/default_main.go:659-675 | The first call with a descriptor writes the status line and closes; every other call does nothing. |

## Left out

- Floats, times and non-ASCII text: `%g`, RFC 3339 and `%q` on non-ASCII bytes are function parameters; the JSON round trip covers non-ASCII text that is printed as it is.
- JSON numbers with a fraction or exponent and `\u` escapes: the parser does not have them, because no value it is used for renders to one.
- Readers that return less than is there: the converter is only ever given in-memory buffers here, and memory exhaustion is not modelled.
- LogProofs.HandOver: records are a level and a message; the attributes added by derived handlers are not modelled, and the buffer does not keep them in the code either.
- Records that the handlers themselves filter or format: a sink is what it was handed and how often it was closed; syslog, redaction, text and JSON log formatting are outside.
- ConfigReadings.ResolvedExactly: the default log file and whether stderr is a terminal are parameters. Replacing the service's logger for client processes is not part of this model.
- ConfigRuns.InForceExactly: whether a file or a syslog connection can be opened is a parameter wherever it may go either way; facility names are trimmed of ASCII spaces only.
- LogSimulation.SimulateConfigure: one call with no other in between; that the log calls of other goroutines come between its critical sections is what the step system is for.
- RotatingWriter.RotatingWriter.Rotate: no I/O errors, no files outside the numbered names, and gzip is a copy with the same contents; 64-bit overflow of sizes is not modelled.
- RotationModel.StoredIsSuffix: with pruning by age, inherited backups are taken to be in order of time, as a clock that does not go back leaves them.
- Metrics.Store.Sample: the slot from which a sample of 0 is counted comes from converting minus infinity to an integer, which the language leaves open; it is a parameter. The rounded logarithm is replaced by the exact one, which agrees up to the last bucket.
- Metrics.RenderOpenMetrics: an empty info key is excluded, because adding a label to one panics.
- MetricsKeys.KeyParses: names with an opening brace and label names with an equals sign are excluded; such keys are ambiguous.
- Framing.Server.HandleGenerator: the frames only; status codes, flushing and formats other than JSON and server-sent events are outside, and each yielded value is given by a legal encoding.
- Framing.DoCall: the empty-line test knows ASCII space only, which is all a rendered line can consist of besides visible text.
- HTTP wiring, reflection, command building, secrets and authentication.
