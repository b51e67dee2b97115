# RollingFileAppender, modelled in Dafny

This project models the decision logic of logback's `RollingFileAppender`. That
is the appender that writes log records to a file and hands the file to a
rolling policy when a triggering policy says it is time to roll. Each method of
the class becomes a pure function on a `World`. Those that add status messages
return them beside the new world, as kinds rather than strings.

- `World` (module `AppenderState`) holds four things:
  - the appender's own fields: name, File property, `append`, `prudent`,
    `started`, the two policy slots, `currentlyActiveFile` and the output
    stream;
  - a heap of policy objects;
  - the context-wide collision registry;
  - the lengths of the files that exist.
- The two policy slots hold references into the heap. A policy that is both
  rolling and triggering is therefore one object, seen through both slots.
- A log of I/O actions records what the appender asked of the outside world,
  in order: close the stream, roll over, open a file, write bytes. The ordering
  properties (trigger before write, close before roll before reopen) are
  stated on this log.
- The registry check (module `CollisionRegistry`) is a function on the map.
  Beside it, a loop over the entries models the source's `for` loop, and it is
  proved to agree with the function whatever order it visits the entries in.
- Startup validation (`Start`) is split the way the source's checks follow one
  another. The later checks are `StartAfterRegistry`, `StartPrudence` and
  `Activate`.
- Module `AppenderProperties` relates several calls: traces of appended
  records, start/stop round trips on a shared registry, and policy rewiring.

Three collaborators are parameters instead of code:
- Matching the File property against the pattern's regular expression is a
  predicate `matches`.
- The triggering policy's decision is a function `trigger` of the active file
  and the record. One function serves a whole trace of records. Triggers that
  read a clock or a byte count are still covered: the record type is generic,
  so a record can carry a timestamp, a position in the trace, or anything else
  the decision depends on. A caller that indexes its records can therefore
  realise any sequence of decisions.
- The encoder is a function `encode` from records to bytes.

What the rolling policy's `rollover()` does is an input `RollOutcome`: whether
it threw `RolloverFailure`, and which name the policy computes for itself
afterwards. Whether opening a file succeeds is an input flag.

`getFile` delegates to the rolling policy's `getActiveFileName()`, and that
answer can depend on the appender. A policy flagged `followsRawFile` answers
the appender's raw File property while it is set, and its own name otherwise.
logback's `RollingPolicyBase` policies behave this way. Any other policy always
answers its own name. So `setFile` can change what `getFile` answers. And the
file that `start` opens at line 101 is the one `getFile` names after prudent
mode has cleared the property at line 93.

## Model

All source paths are under `logback-core/src/main/java/ch/qos/logback/core/rolling/`, written out in full below.

| member | source | states |
|---|---|---|
| CollisionRegistry.InnerCheck | logback-core/src/main/java/ch/qos/logback/core/rolling/RollingFileAppender.java:134-151 | With no registry there is no collision and nothing is stored. With a registry, a collision is found iff some entry's pattern equals the given pattern, and the owners are exactly those names. The pattern is stored under the name whether or not there was a collision, and every other entry is left alone. A null pattern against a non-empty map throws. |
| CollisionRegistry.ScanEntries | logback-core/src/main/java/ch/qos/logback/core/rolling/RollingFileAppender.java:141-146 | Whatever order the entries are visited in, the loop reports exactly the names whose pattern equals the given one, each once. Its flag is set iff something was reported, and it agrees with InnerCheck. |
| RollingFileAppender.SetRollingPolicy | logback-core/src/main/java/ch/qos/logback/core/rolling/RollingFileAppender.java:278-290 | The rolling slot takes the policy. A policy that is also triggering takes the triggering slot too; otherwise the triggering slot is unchanged. There is one warning, issued iff the replaced rolling policy doubled as a triggering policy. Nothing else changes. |
| RollingFileAppender.SetTriggeringPolicy | logback-core/src/main/java/ch/qos/logback/core/rolling/RollingFileAppender.java:292-303 | The mirror image: the triggering slot takes the policy, and so does the rolling slot when the policy is also rolling. The warning is issued iff the replaced triggering policy doubled as a rolling policy. |
| RollingFileAppender.SetFile | logback-core/src/main/java/ch/qos/logback/core/rolling/RollingFileAppender.java:179-188 | The File property is assigned in every case. An error is reported iff a non-null file is set after either policy. Nothing else changes. |
| AppenderProperties.GetFileAfterSetFile | logback-core/src/main/java/ch/qos/logback/core/rolling/RollingFileAppender.java:179-193 | After setFile, a rolling policy that follows the File property makes getFile answer the new property while it is set, and the policy's own name once it is cleared. With any other policy, setFile does not change what getFile answers. |
| RollingFileAppender.IncrementByteCount | logback-core/src/main/java/ch/qos/logback/core/rolling/RollingFileAppender.java:312-320 | Without a counter nothing changes. The counter never decreases. It changes iff it exists and the increment is strictly positive, and then by exactly the increment. Only the counter changes. |
| RollingFileAppender.UpdateByteCount | logback-core/src/main/java/ch/qos/logback/core/rolling/RollingFileAppender.java:305-310 | A null array or a missing counter changes nothing. Otherwise the counter grows by the array's length, and only the counter changes. |
| RollingFileAppender.CollisionCheckReadsTriggeringPolicy | logback-core/src/main/java/ch/qos/logback/core/rolling/RollingFileAppender.java:122-132 | checkForCollisionsInPreviousRollingFileAppenders reads only the triggering policy. When that policy does not extend RollingPolicyBase, there is no collision and the registry is untouched. Otherwise the check throws iff the pattern is null and the registry is non-empty. A collision is found iff some entry holds the same pattern, and the pattern is stored under the name. |
| AppenderProperties.StartIgnoresRollingSlotPattern | logback-core/src/main/java/ch/qos/logback/core/rolling/RollingFileAppender.java:109-132 | When the rolling slot holds another object than the triggering slot, changing the rolling policy's pattern changes neither check. Start then does exactly the same, apart from that pattern: the same messages, the same appender and the same registry. |
| RollingFileAppender.FileMatchesPattern | logback-core/src/main/java/ch/qos/logback/core/rolling/RollingFileAppender.java:109-120 | A null File property, a null pattern, or a triggering policy that does not extend RollingPolicyBase never collides. Otherwise the answer is whether the File property matches the pattern's regular expression. |
| RollingFileAppender.GetFile | logback-core/src/main/java/ch/qos/logback/core/rolling/RollingFileAppender.java:190-193 | getFile answers what the policy in the rolling slot answers: the raw File property when the policy follows it and it is set, and the policy's own name otherwise. |
| RollingFileAppender.AttemptRollover | logback-core/src/main/java/ch/qos/logback/core/rolling/RollingFileAppender.java:227-235 | The policy's rollover is logged. A failure is caught, warned about once, and forces append mode. Only the rolling policy's own name changes among the policies, and getFile afterwards answers what the rolled policy answers. Nothing else in the appender changes. |
| RollingFileAppender.AttemptOpenFile | logback-core/src/main/java/ch/qos/logback/core/rolling/RollingFileAppender.java:214-225 | The active file becomes what getFile answers, and that file is opened. A failed open adds one error and leaves no stream. Nothing else changes. |
| RollingFileAppender.WriteRecord | logback-core/src/main/java/ch/qos/logback/core/rolling/RollingFileAppender.java:259-259 | The superclass write that ends subAppend, followed by updateByteCount. With no open stream nothing happens. With an open stream the encoded bytes are logged as written to it, and the counter, if any, grows by their length. Nothing else in the appender changes. |
| RollingFileAppender.InitializeLengthCounter | logback-core/src/main/java/ch/qos/logback/core/rolling/RollingFileAppender.java:153-159 | If there is a counter and the active file exists, the file's length is added once and reported. Otherwise the world is unchanged and nothing is reported. |
| RollingFileAppender.Rollover | logback-core/src/main/java/ch/qos/logback/core/rolling/RollingFileAppender.java:198-235 | The log gains exactly close, roll, reopen, in that order. A failed roll forces append mode, is reported as deferred, and the reopen still happens. Either way, the active file becomes what getFile answers after the roll: the File property if the policy follows it and it is set, else the name the roll leaves. A failed reopen only adds an error and leaves no stream. Counter, registry and the rest of the appender are untouched. |
| RollingFileAppender.SubAppend | logback-core/src/main/java/ch/qos/logback/core/rolling/RollingFileAppender.java:241-260 | Appending a record keeps the policy wiring, the life-cycle flag and the registry, and extends the log without rewriting it. |
| RollingFileAppender.TriggerPrecedesWrite | logback-core/src/main/java/ch/qos/logback/core/rolling/RollingFileAppender.java:247-259 | Per record, one rollover iff the trigger fires on the pre-rollover active file, none otherwise. No rollover follows the write. After a successful reopen the record is the last thing written, to the new active file. Without a trigger it goes to the stream as it was. |
| RollingFileAppender.CounterTracksRecord | logback-core/src/main/java/ch/qos/logback/core/rolling/RollingFileAppender.java:252-259 | Per record, the byte counter grows by exactly the bytes written to the stream, or there is no counter before or after. |
| RollingFileAppender.RolloverKeepsCounter | logback-core/src/main/java/ch/qos/logback/core/rolling/RollingFileAppender.java:198-212 | A rollover writes no bytes and leaves the counter as it was. |
| RollingFileAppender.WriteCountsBytes | logback-core/src/main/java/ch/qos/logback/core/rolling/RollingFileAppender.java:305-310 | The write that follows the trigger check adds its bytes to the counter exactly when it reaches an open stream. |
| RollingFileAppender.Start | logback-core/src/main/java/ch/qos/logback/core/rolling/RollingFileAppender.java:54-105 | An appender that is not started becomes started iff every check passes and the superclass start succeeds. The checks are: triggering policy set and started; no registry collision; rolling policy set; File property not matching the pattern; not prudent with compression. The policy slots are kept. |
| RollingFileAppender.StartAbortsEarlyWithoutEffect | logback-core/src/main/java/ch/qos/logback/core/rolling/RollingFileAppender.java:54-69 | A missing or unstarted triggering policy ends start with its warning and changes nothing. So does a registry check that throws. A collision ends it with the collision errors and leaves the appender's own fields as they were. |
| RollingFileAppender.StartRegistersPattern | logback-core/src/main/java/ch/qos/logback/core/rolling/RollingFileAppender.java:65-69 | Once the trigger check passes, a triggering policy extending RollingPolicyBase has its pattern stored under the name, whether or not a collision follows. In every other case the registry is untouched. |
| RollingFileAppender.StartForcesAppend | logback-core/src/main/java/ch/qos/logback/core/rolling/RollingFileAppender.java:71-75 | Past the registry check, append is true afterwards whatever later check fails. Before it, append is unchanged. |
| RollingFileAppender.StartWarnsForcedAppend | logback-core/src/main/java/ch/qos/logback/core/rolling/RollingFileAppender.java:71-75 | The forced-append warning is issued iff the registry check was passed and append was false. |
| RollingFileAppender.StartReportsFailedCheck | logback-core/src/main/java/ch/qos/logback/core/rolling/RollingFileAppender.java:77-98 | A missing rolling policy, a File property matching the pattern, and compression in prudent mode each end start with their own error as the last message. |
| RollingFileAppender.StartClearsFileInPrudentMode | logback-core/src/main/java/ch/qos/logback/core/rolling/RollingFileAppender.java:90-94 | In prudent mode the File property is null after start once the earlier checks pass, including when compression then aborts. Otherwise it is unchanged. |
| RollingFileAppender.StartWarnsClearedFile | logback-core/src/main/java/ch/qos/logback/core/rolling/RollingFileAppender.java:90-94 | The clearing is reported iff it happens to a non-null File property. |
| RollingFileAppender.StartFailureLeavesStreamAndCounter | logback-core/src/main/java/ch/qos/logback/core/rolling/RollingFileAppender.java:54-99 | A start that fails a check leaves the started flag, the stream, the active file and the counter as they were. |
| RollingFileAppender.StartFile | logback-core/src/main/java/ch/qos/logback/core/rolling/RollingFileAppender.java:90-101 | The file start names at line 101 is what getFile answers once prudent mode has cleared the File property. In prudent mode that is the rolling policy's own name, whatever the property said. Otherwise it is getFile as it stands. |
| RollingFileAppender.StartActivates | logback-core/src/main/java/ch/qos/logback/core/rolling/RollingFileAppender.java:90-104 | A start that passes every check uses the file getFile names after the prudent-mode clearing. It reports that file and takes it as the active file. It adds the file's existing length to the counter once, and opens the stream on it when the superclass start succeeds. |
| RollingFileAppender.Stop | logback-core/src/main/java/ch/qos/logback/core/rolling/RollingFileAppender.java:161-177 | Not started: nothing changes. Started: the appender stops, the stream closes, exactly the policies in the two slots stop, and only this name's registry entry is removed when name and registry exist. |
| AppenderProperties.StopIsIdempotent | logback-core/src/main/java/ch/qos/logback/core/rolling/RollingFileAppender.java:161-165 | Stopping twice is stopping once. |
| AppenderProperties.StopUndoesStartRegistration | logback-core/src/main/java/ch/qos/logback/core/rolling/RollingFileAppender.java:147-149 | Starting and then stopping an appender whose name was not registered gives back the registry it started from. |
| AppenderProperties.LaterAppenderWithSamePatternFails | logback-core/src/main/java/ch/qos/logback/core/rolling/RollingFileAppender.java:134-151 | Once one appender has registered a pattern, a second appender with the same pattern does not start. It names the first as an owner and ends with the collision error. |
| AppenderProperties.RestartWithoutStopCollidesWithItself | logback-core/src/main/java/ch/qos/logback/core/rolling/RollingFileAppender.java:141-149 | An appender that passed the registry check finds its own entry as a collision when started again without a stop, and the registry stays as it was. This holds whether its start succeeded or failed a later check. After a failed start, stop does nothing, so stopping cannot clear the entry. |
| AppenderProperties.ReplacingDoubleDutyRollingPolicyKeepsOldTrigger | logback-core/src/main/java/ch/qos/logback/core/rolling/RollingFileAppender.java:278-290 | Replacing a double-duty rolling policy with a single-role one only warns. The old policy stays in the triggering slot. |
| AppenderProperties.AppendAll | logback-core/src/main/java/ch/qos/logback/core/rolling/RollingFileAppender.java:241-260 | A sequence of records keeps the wiring, the life-cycle flag and the registry, and extends the log without rewriting it. |
| AppenderProperties.AtMostOneRolloverPerRecord | logback-core/src/main/java/ch/qos/logback/core/rolling/RollingFileAppender.java:250-257 | Over any trace, the rolling policy is asked to roll at most once per record. |
| AppenderProperties.CounterTracksWrittenBytes | logback-core/src/main/java/ch/qos/logback/core/rolling/RollingFileAppender.java:305-320 | Over any trace, the byte counter grows by exactly the bytes written to the stream. |
| AppenderProperties.StartThenTraceCountsBytes | logback-core/src/main/java/ch/qos/logback/core/rolling/RollingFileAppender.java:153-159 | initializeLengthCounter makes the counter agree with the file. After a start that passes every check, followed by any trace of records, the counter is its value before start, plus the existing length of the file start opened, plus every byte the trace wrote. Without a counter there is none afterwards. |

## Left out

- Locks (`triggeringPolicyLock`, `streamWriteLock`) and thread interleavings: every call is one atomic transition.
- Physical I/O:
  - the existence and length of files are the `fileLengths` map;
  - opening, closing and writing are entries in the I/O log plus the `stream` field;
  - the outcome of an open is an input.
- Regular expressions: `FileNamePattern.toRegex()` and `String.matches` are the `matches` parameter.
- Concrete policies: how a trigger decides, how a roll renames, compresses and prunes, and any counter reset a policy performs on rollover. The decision and the roll's outcome are inputs, and the counter is changed only by this class.
- The `FileAppender` superclass is modelled only as far as this class relies on it:
  - `super.start()` opens the active file with an outcome flag;
  - `super.stop()` clears `started` and closes the stream;
  - `super.subAppend()` writes the encoded record to an open stream and then calls `updateByteCount`;
  - `super.setFile()` is a plain assignment, and its trimming of whitespace is left out.
- Message texts and documentation URLs are not modelled; each message is a `Diagnostic` kind. Where the source issues one error per colliding entry, the model issues a single `PatternCollisions` diagnostic that carries the set of owners. `ScanEntries` shows that the per-entry loop reports the same names.
- `getRollingPolicy` and `getTriggeringPolicy` are plain getters of the two slots.
- `getActiveFileName()` returning null is not modelled: an active file name is always a string. A policy that always answers the File property, even when it is null, is modelled as answering its own name once the property is cleared.
- How a concrete policy computes its own name is left out. It is the `activeFileName` field, changed only by a roll's outcome.
- Null policies where the source dereferences them become preconditions:
  - `getFile` with no rolling policy;
  - `subAppend` with no triggering policy;
  - a rollover with no rolling policy;
  - `incrementByteCount`, `updateByteCount` and `initializeLengthCounter` with no triggering policy, since `getLengthCounter` (line 323) dereferences it.
- Counter arithmetic: the `long` counter and `LengthCounter.add` are unbounded integers, so `IncrementByteCount` and `UpdateByteCount` do not model 64-bit overflow. Reaching it would take more than 2^63 bytes.
- The null-pattern case at line 142 is modelled, not left out. With a non-empty registry and a null pattern, `equals` on the null pattern throws, and start ends with `UncaughtNullPointer` and no change.

Three behaviours of the code a reader may not expect, all modelled as written:
- A failed start keeps its earlier side effects: the registry entry, `append = true`, and the cleared File property.
- The pattern is registered even when a collision is found.
- Only the triggering policy's pattern is checked and registered; the rolling policy's is never consulted.
- In prudent mode the File property is cleared before the active file is read. So a rolling policy that follows the property opens its own name, not the configured file.
