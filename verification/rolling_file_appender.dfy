/**
 * The decision logic of RollingFileAppender as pure transitions on a World:
 * startup validation, the collision registry, policy wiring, the rollover
 * protocol, the append path, byte counting and shutdown. Locks are left out:
 * each call is one atomic step.
 */
module RollingFileAppender {
  import opened Wrappers
  import opened Policies
  import opened CollisionRegistry
  import opened AppenderState

  /**
   * What a call to the rolling policy's rollover() leaves behind: whether it
   * threw a RolloverFailure, and the name the policy computes for itself after
   * the call (what it answers as active file unless it follows a File property).
   */
  datatype RollOutcome = RollOutcome(failed: bool, activeFileName: string)

  // ----- Policy wiring -----------------------------------------------------

  /**
   * setRollingPolicy: a policy that is also a TriggeringPolicy fills both
   * slots; replacing a rolling policy that doubled as triggering policy warns.
   */
  function SetRollingPolicy(w: World, policy: Option<Ref>): (r: Step)
    requires w.Valid()
    requires policy.Some? ==> policy.value in w.policies && w.policies[policy.value].isRolling
    ensures r.world.Valid()
    ensures r.world.appender.rollingPolicy == policy
    ensures policy.Some? && w.policies[policy.value].isTriggering ==> r.world.appender.triggeringPolicy == policy
    ensures policy.None? || !w.policies[policy.value].isTriggering ==>
              r.world.appender.triggeringPolicy == w.appender.triggeringPolicy
    ensures r.diags != [] <==> w.HasRolling() && w.Rolling().isTriggering
    ensures r.diags != [] ==> r.diags == [RollingPolicyReplaced]
    ensures r.world.appender.(rollingPolicy := w.appender.rollingPolicy,
                              triggeringPolicy := w.appender.triggeringPolicy) == w.appender
    ensures r.world.(appender := w.appender) == w
  {
    var warn := if w.HasRolling() && w.Rolling().isTriggering then [RollingPolicyReplaced] else [];
    var doubles := policy.Some? && w.policies[policy.value].isTriggering;
    var a := w.appender.(rollingPolicy := policy,
                         triggeringPolicy := if doubles then policy else w.appender.triggeringPolicy);
    Step(w.(appender := a), warn)
  }

  /**
   * setTriggeringPolicy: a policy that is also a RollingPolicy fills both
   * slots; replacing a triggering policy that doubled as rolling policy warns.
   */
  function SetTriggeringPolicy(w: World, policy: Option<Ref>): (r: Step)
    requires w.Valid()
    requires policy.Some? ==> policy.value in w.policies && w.policies[policy.value].isTriggering
    ensures r.world.Valid()
    ensures r.world.appender.triggeringPolicy == policy
    ensures policy.Some? && w.policies[policy.value].isRolling ==> r.world.appender.rollingPolicy == policy
    ensures policy.None? || !w.policies[policy.value].isRolling ==>
              r.world.appender.rollingPolicy == w.appender.rollingPolicy
    ensures r.diags != [] <==> w.HasTriggering() && w.Triggering().isRolling
    ensures r.diags != [] ==> r.diags == [TriggeringPolicyReplaced]
    ensures r.world.appender.(rollingPolicy := w.appender.rollingPolicy,
                              triggeringPolicy := w.appender.triggeringPolicy) == w.appender
    ensures r.world.(appender := w.appender) == w
  {
    var warn := if w.HasTriggering() && w.Triggering().isRolling then [TriggeringPolicyReplaced] else [];
    var doubles := policy.Some? && w.policies[policy.value].isRolling;
    var a := w.appender.(triggeringPolicy := policy,
                         rollingPolicy := if doubles then policy else w.appender.rollingPolicy);
    Step(w.(appender := a), warn)
  }

  // ----- The File property -------------------------------------------------

  /**
   * setFile: a non-null file set after either policy is reported as an error,
   * yet it is assigned all the same.
   */
  function SetFile(w: World, file: Option<string>): (r: Step)
    ensures r.world.appender.fileName == file
    ensures r.diags != [] <==> file.Some? && (w.appender.triggeringPolicy.Some? || w.appender.rollingPolicy.Some?)
    ensures r.diags != [] ==> r.diags == [FileSetAfterPolicy]
    ensures r.world.appender.(fileName := w.appender.fileName) == w.appender
    ensures r.world.(appender := w.appender) == w
  {
    var late := file.Some? && (w.appender.triggeringPolicy.Some? || w.appender.rollingPolicy.Some?);
    Step(w.(appender := w.appender.(fileName := file)), if late then [FileSetAfterPolicy] else [])
  }

  /**
   * getFile: whatever the rolling policy answers as its active file name. A
   * policy that follows the raw File property answers the property while it
   * is set; otherwise, and for every other policy, it answers its own name.
   */
  function GetFile(w: World): (r: string)
    requires w.HasRolling()
    ensures w.Rolling().followsRawFile && w.appender.fileName.Some? ==> r == w.appender.fileName.value
    ensures !w.Rolling().followsRawFile || w.appender.fileName.None? ==> r == w.Rolling().activeFileName
  {
    ActiveName(w.Rolling(), w.appender.fileName)
  }

  // ----- Byte counting -----------------------------------------------------

  /** The world with the triggering policy's counter replaced by `c`. */
  function WithCounter(w: World, c: Option<int>): World
    requires w.HasTriggering()
  {
    w.(policies := w.policies[w.appender.triggeringPolicy.value := w.Triggering().(lengthCounter := c)])
  }

  /**
   * incrementByteCount: the counter, when there is one, grows by the
   * increment if it is strictly positive; nothing else changes.
   */
  function IncrementByteCount(w: World, increment: int): (r: World)
    requires w.HasTriggering()
    ensures r.HasTriggering()
    ensures w.Counter().None? ==> r == w
    ensures w.Counter().Some? ==> r.Counter().Some? && r.Counter().value >= w.Counter().value
    ensures r.Counter() != w.Counter() <==> w.Counter().Some? && increment > 0
    ensures r.Counter() != w.Counter() ==> r.Counter().value == w.Counter().value + increment
    ensures r == WithCounter(w, r.Counter())
  {
    var c := w.Counter();
    if c.Some? && increment > 0 then WithCounter(w, Some(c.value + increment))
    else
      assert w.policies[w.appender.triggeringPolicy.value := w.Triggering()] == w.policies;
      w
  }

  /**
   * updateByteCount: a null byte array changes nothing; otherwise the counter,
   * when there is one, grows by the array's length.
   */
  function UpdateByteCount(w: World, byteArray: Option<seq<bv8>>): (r: World)
    requires w.HasTriggering()
    ensures r.HasTriggering()
    ensures byteArray.None? || w.Counter().None? ==> r == w
    ensures byteArray.Some? && w.Counter().Some? ==>
              r.Counter() == Some(w.Counter().value + |byteArray.value|)
    ensures r == WithCounter(w, r.Counter())
  {
    match byteArray
    case None =>
      assert w.policies[w.appender.triggeringPolicy.value := w.Triggering()] == w.policies;
      w
    case Some(bytes) => IncrementByteCount(w, |bytes|)
  }

  /**
   * initializeLengthCounter: when the triggering policy has a counter and the
   * active file exists, its length is counted once.
   */
  function InitializeLengthCounter(w: World): (r: Step)
    requires w.HasTriggering() && w.appender.currentlyActiveFile.Some?
    ensures r.world.HasTriggering()
    ensures var f := w.appender.currentlyActiveFile.value;
            w.Counter().Some? && f in w.fileLengths ==>
              r.world.Counter() == Some(w.Counter().value + w.fileLengths[f])
              && r.diags == [InitialFileLength(f, w.fileLengths[f])]
    ensures var f := w.appender.currentlyActiveFile.value;
            w.Counter().None? || f !in w.fileLengths ==> r == Step(w, [])
    ensures r.world == WithCounter(w, r.world.Counter())
  {
    var f := w.appender.currentlyActiveFile.value;
    if w.Counter().Some? && f in w.fileLengths then
      Step(IncrementByteCount(w, w.fileLengths[f]), [InitialFileLength(f, w.fileLengths[f])])
    else
      assert w.policies[w.appender.triggeringPolicy.value := w.Triggering()] == w.policies;
      Step(w, [])
  }

  // ----- Rollover protocol -------------------------------------------------

  /** The file getFile names once the rolling policy has rolled with `outcome`. */
  function RolledFile(w: World, outcome: RollOutcome): string
    requires w.HasRolling()
  {
    ActiveName(w.Rolling().(activeFileName := outcome.activeFileName), w.appender.fileName)
  }

  /** closeOutputStream: closing an already closed stream is harmless. */
  function CloseOutputStream(w: World): World
  {
    w.(appender := w.appender.(stream := None, io := w.appender.io + [CloseStream]))
  }

  /**
   * attemptRollover: the policy's rollover runs; a RolloverFailure is caught,
   * warned about and forces append mode so the reopen cannot truncate.
   */
  function AttemptRollover(w: World, outcome: RollOutcome): (r: Step)
    requires w.Valid() && w.appender.rollingPolicy.Some?
    ensures r.world.Valid() && r.world.HasRolling()
    ensures r.world.appender.io == w.appender.io + [PolicyRollover(outcome.failed)]
    ensures r.world.appender.append == (w.appender.append || outcome.failed)
    ensures r.diags != [] <==> outcome.failed
    ensures r.diags != [] ==> r.diags == [RolloverDeferred]
    ensures GetFile(r.world) == RolledFile(w, outcome)
    ensures r.world.appender.(io := w.appender.io, append := w.appender.append) == w.appender
    ensures r.world.policies == w.policies[w.appender.rollingPolicy.value := w.Rolling().(activeFileName := outcome.activeFileName)]
    ensures r.world.registry == w.registry && r.world.fileLengths == w.fileLengths
  {
    var rp := w.appender.rollingPolicy.value;
    var a := w.appender.(io := w.appender.io + [PolicyRollover(outcome.failed)],
                         append := w.appender.append || outcome.failed);
    var w1 := w.(appender := a, policies := w.policies[rp := w.Rolling().(activeFileName := outcome.activeFileName)]);
    Step(w1, if outcome.failed then [RolloverDeferred] else [])
  }

  /**
   * attemptOpenFile: the active file becomes the policy's active file name,
   * then it is opened; an I/O failure only adds an error.
   */
  function AttemptOpenFile(w: World, openOk: bool): (r: Step)
    requires w.HasRolling()
    ensures r.world.appender.currentlyActiveFile == Some(GetFile(w))
    ensures r.world.appender.stream == (if openOk then Some(GetFile(w)) else None)
    ensures r.world.appender.io == w.appender.io + [OpenFile(GetFile(w), openOk)]
    ensures r.diags != [] <==> !openOk
    ensures r.diags != [] ==> r.diags == [ReopenFailed]
    ensures r.world.appender.(currentlyActiveFile := w.appender.currentlyActiveFile, stream := w.appender.stream,
                              io := w.appender.io) == w.appender
    ensures r.world.(appender := w.appender) == w
  {
    var path := GetFile(w);
    var a := w.appender.(currentlyActiveFile := Some(path),
                         stream := if openOk then Some(path) else None,
                         io := w.appender.io + [OpenFile(path, openOk)]);
    Step(w.(appender := a), if openOk then [] else [ReopenFailed])
  }

  /**
   * rollover: close, then roll, then reopen, in that order. A failed roll
   * degrades to append mode and the reopen still happens; the active file
   * follows the policy whether or not the roll succeeded.
   */
  function Rollover(w: World, outcome: RollOutcome, openOk: bool): (r: Step)
    requires w.Valid() && w.appender.rollingPolicy.Some?
    ensures r.world.Valid() && r.world.HasRolling()
    ensures r.world.appender.io ==
              w.appender.io + [CloseStream, PolicyRollover(outcome.failed), OpenFile(RolledFile(w, outcome), openOk)]
    ensures r.world.appender.append == (w.appender.append || outcome.failed)
    ensures r.world.appender.currentlyActiveFile == Some(RolledFile(w, outcome))
    ensures GetFile(r.world) == RolledFile(w, outcome)
    ensures r.world.appender.stream == (if openOk then Some(RolledFile(w, outcome)) else None)
    ensures RolloverDeferred in r.diags <==> outcome.failed
    ensures ReopenFailed in r.diags <==> !openOk
    ensures |r.diags| <= 2 && (|r.diags| == 2 ==> r.diags == [RolloverDeferred, ReopenFailed])
    ensures r.world.appender.(io := w.appender.io, append := w.appender.append,
                              currentlyActiveFile := w.appender.currentlyActiveFile,
                              stream := w.appender.stream) == w.appender
    ensures r.world.policies == w.policies[w.appender.rollingPolicy.value := r.world.Rolling()]
    ensures r.world.Rolling() == w.Rolling().(activeFileName := outcome.activeFileName)
    ensures r.world.registry == w.registry && r.world.fileLengths == w.fileLengths
    ensures w.HasTriggering() ==> r.world.HasTriggering() && r.world.Counter() == w.Counter()
  {
    var s1 := AttemptRollover(CloseOutputStream(w), outcome);
    var s2 := AttemptOpenFile(s1.world, openOk);
    Step(s2.world, s1.diags + s2.diags)
  }

  // ----- Append path -------------------------------------------------------

  /**
   * The write of the superclass: the encoded record goes to the open stream
   * and the byte count is updated; with no open stream nothing is written.
   */
  function WriteRecord(w: World, bytes: seq<bv8>): (r: World)
    requires w.Valid() && w.HasTriggering()
    ensures r.Valid() && r.HasTriggering()
    ensures w.appender.stream.None? ==> r == w
    ensures w.appender.stream.Some? ==>
              && r.appender.io == w.appender.io + [WriteBytes(w.appender.stream.value, bytes)]
              && r.Counter() == (if w.Counter().Some? then Some(w.Counter().value + |bytes|) else None)
    ensures r.appender.(io := w.appender.io) == w.appender
    ensures r.registry == w.registry
  {
    match w.appender.stream
    case None => w
    case Some(path) =>
      UpdateByteCount(w.(appender := w.appender.(io := w.appender.io + [WriteBytes(path, bytes)])), Some(bytes))
  }

  /** The trigger decision for `event`, taken on the active file as it is before any rollover. */
  function Fires<E>(w: World, event: E, trigger: (Option<string>, E) -> bool): bool
  {
    trigger(w.appender.currentlyActiveFile, event)
  }

  /**
   * subAppend: the trigger is consulted on the current active file before the
   * record is written; when it fires the rollover protocol runs first. The
   * policy wiring, the life-cycle flag and the registry are left as they are
   * and the log only grows.
   */
  function SubAppend<E>(w: World, event: E, trigger: (Option<string>, E) -> bool, encode: E -> seq<bv8>,
                        outcome: RollOutcome, openOk: bool): (r: Step)
    requires w.Valid() && w.appender.triggeringPolicy.Some?
    requires Fires(w, event, trigger) ==> w.appender.rollingPolicy.Some?
    ensures r.world.Valid() && r.world.HasTriggering()
    ensures r.world.appender.rollingPolicy == w.appender.rollingPolicy
    ensures r.world.appender.triggeringPolicy == w.appender.triggeringPolicy
    ensures r.world.appender.started == w.appender.started
    ensures r.world.registry == w.registry
    ensures |w.appender.io| <= |r.world.appender.io| && r.world.appender.io[..|w.appender.io|] == w.appender.io
  {
    if Fires(w, event, trigger) then
      var s1 := Rollover(w, outcome, openOk);
      var w2 := WriteRecord(s1.world, encode(event));
      Step(w2, s1.diags)
    else
      Step(WriteRecord(w, encode(event)), [])
  }

  /** The part of the log that `SubAppend` adds. */
  function AddedLog<E>(w: World, event: E, trigger: (Option<string>, E) -> bool, encode: E -> seq<bv8>,
                       outcome: RollOutcome, openOk: bool): seq<IoAction>
    requires w.Valid() && w.appender.triggeringPolicy.Some?
    requires Fires(w, event, trigger) ==> w.appender.rollingPolicy.Some?
  {
    SubAppend(w, event, trigger, encode, outcome, openOk).world.appender.io[|w.appender.io|..]
  }

  /**
   * Trigger before write: a record causes one rollover if its trigger fires
   * and none otherwise, no rollover follows the write, and after a successful
   * reopen the record lands in the new active file; without a trigger it goes
   * to the stream as it was.
   */
  lemma {:induction false} TriggerPrecedesWrite<E>(w: World, event: E, trigger: (Option<string>, E) -> bool,
                                                   encode: E -> seq<bv8>, outcome: RollOutcome, openOk: bool)
    requires w.Valid() && w.appender.triggeringPolicy.Some?
    requires Fires(w, event, trigger) ==> w.appender.rollingPolicy.Some?
    ensures var added := AddedLog(w, event, trigger, encode, outcome, openOk);
            && Rollovers(added) == (if Fires(w, event, trigger) then 1 else 0)
            && NoRolloverAfterWrite(added)
            && (Fires(w, event, trigger) && openOk ==>
                  added != [] && added[|added| - 1] == WriteBytes(RolledFile(w, outcome), encode(event)))
            && (!Fires(w, event, trigger) ==>
                  added == (if w.appender.stream.Some? then [WriteBytes(w.appender.stream.value, encode(event))] else []))
  {
    var added := AddedLog(w, event, trigger, encode, outcome, openOk);
    var bytes := encode(event);
    if Fires(w, event, trigger) {
      assert SubAppend(w, event, trigger, encode, outcome, openOk).world == WriteRecord(Rollover(w, outcome, openOk).world, bytes);
      RolloverThenWrite(w, outcome, openOk, bytes);
    } else {
      assert SubAppend(w, event, trigger, encode, outcome, openOk).world == WriteRecord(w, bytes);
      WriteAdds(w, bytes);
    }
  }

  /**
   * A rollover followed by a write adds the protocol and then at most one
   * write, which after a successful reopen goes to the new active file.
   */
  lemma RolloverThenWrite(w: World, outcome: RollOutcome, openOk: bool, bytes: seq<bv8>)
    requires w.Valid() && w.HasTriggering() && w.appender.rollingPolicy.Some?
    ensures var w1 := Rollover(w, outcome, openOk).world;
            var added := WriteRecord(w1, bytes).appender.io[|w.appender.io|..];
            && Rollovers(added) == 1
            && NoRolloverAfterWrite(added)
            && (openOk ==> added != [] && added[|added| - 1] == WriteBytes(RolledFile(w, outcome), bytes))
  {
    var w1 := Rollover(w, outcome, openOk).world;
    var w2 := WriteRecord(w1, bytes);
    WriteAdds(w1, bytes);
    var protocol := [CloseStream, PolicyRollover(outcome.failed), OpenFile(RolledFile(w, outcome), openOk)];
    var write := w2.appender.io[|w1.appender.io|..];
    assert w2.appender.io[|w.appender.io|..] == protocol + write;
    ProtocolThenWrite(outcome.failed, RolledFile(w, outcome), openOk, write);
  }

  /** A write adds one entry to the log when a stream is open, and nothing otherwise. */
  lemma WriteAdds(w: World, bytes: seq<bv8>)
    requires w.Valid() && w.HasTriggering()
    ensures Extends(w, WriteRecord(w, bytes))
    ensures WriteRecord(w, bytes).appender.io[|w.appender.io|..] ==
              (if w.appender.stream.Some? then [WriteBytes(w.appender.stream.value, bytes)] else [])
  {
  }

  /** The byte counter grows by exactly the bytes `SubAppend` writes. */
  lemma CounterTracksRecord<E>(w: World, event: E, trigger: (Option<string>, E) -> bool,
                               encode: E -> seq<bv8>, outcome: RollOutcome, openOk: bool)
    requires w.Valid() && w.appender.triggeringPolicy.Some?
    requires Fires(w, event, trigger) ==> w.appender.rollingPolicy.Some?
    ensures CounterFollows(w, SubAppend(w, event, trigger, encode, outcome, openOk).world)
  {
    var w1 := if Fires(w, event, trigger) then Rollover(w, outcome, openOk).world else w;
    if Fires(w, event, trigger) {
      RolloverKeepsCounter(w, outcome, openOk);
    } else {
      assert w.appender.io[|w.appender.io|..] == [];
    }
    var w2 := WriteRecord(w1, encode(event));
    WriteCountsBytes(w1, encode(event));
    CounterFollowsTrans(w, w1, w2);
    assert w2 == SubAppend(w, event, trigger, encode, outcome, openOk).world;
  }

  /** A rollover writes nothing and leaves the counter alone. */
  lemma RolloverKeepsCounter(w: World, outcome: RollOutcome, openOk: bool)
    requires w.Valid() && w.HasTriggering() && w.HasRolling()
    ensures CounterFollows(w, Rollover(w, outcome, openOk).world)
  {
    var r := Rollover(w, outcome, openOk).world;
    var protocol := [CloseStream, PolicyRollover(outcome.failed), OpenFile(RolledFile(w, outcome), openOk)];
    assert r.appender.io[|w.appender.io|..] == protocol;
    ProtocolThenWrite(outcome.failed, RolledFile(w, outcome), openOk, []);
    assert protocol + [] == protocol;
  }

  /** A write adds its bytes to the counter exactly when it reaches a stream. */
  lemma WriteCountsBytes(w: World, bytes: seq<bv8>)
    requires w.Valid() && w.HasTriggering()
    ensures CounterFollows(w, WriteRecord(w, bytes))
  {
    var write := WriteRecord(w, bytes).appender.io[|w.appender.io|..];
    WriteAdds(w, bytes);
    if w.appender.stream.Some? {
      assert write[..0] == [];
    }
  }

  /** The log a triggered append adds: the rollover protocol, then at most one write. */
  lemma ProtocolThenWrite(failed: bool, path: string, ok: bool, write: seq<IoAction>)
    requires |write| <= 1 && forall a :: a in write ==> a.WriteBytes?
    ensures var added := [CloseStream, PolicyRollover(failed), OpenFile(path, ok)] + write;
            && Rollovers(added) == 1
            && WrittenBytes(added) == WrittenBytes(write)
            && NoRolloverAfterWrite(added)
  {
    var protocol := [CloseStream, PolicyRollover(failed), OpenFile(path, ok)];
    var one: seq<IoAction> := [CloseStream];
    var two: seq<IoAction> := [CloseStream, PolicyRollover(failed)];
    assert one[..0] == [] && two[..1] == one && protocol[..2] == two;
    assert Rollovers(one) == 0 && WrittenBytes(one) == 0;
    assert Rollovers(two) == 1 && WrittenBytes(two) == 0;
    RolloversAppend(protocol, write);
    WrittenBytesAppend(protocol, write);
  }

  // ----- Startup validation ------------------------------------------------

  /** First check: a triggering policy is set and has started. */
  predicate TriggerReady(w: World)
  {
    w.HasTriggering() && w.Triggering().started
  }

  /**
   * checkForCollisionsInPreviousRollingFileAppenders: only a triggering policy
   * that extends RollingPolicyBase has its pattern checked and registered; the
   * rolling policy is not consulted.
   */
  function CollisionCheck(w: World): CheckResult
    requires w.HasTriggering()
  {
    var tp := w.Triggering();
    if tp.isRollingBase then InnerCheck(w.registry, w.appender.name, tp.fileNamePattern)
    else Checked(false, {}, w.registry)
  }

  /**
   * The registry check reads the triggering policy only: a policy that does
   * not extend RollingPolicyBase is never checked nor registered; otherwise
   * its pattern is compared with every entry and stored under the name.
   */
  lemma CollisionCheckReadsTriggeringPolicy(w: World)
    requires w.HasTriggering()
    ensures var tp := w.Triggering();
            !tp.isRollingBase ==> CollisionCheck(w) == Checked(false, {}, w.registry)
    ensures var tp := w.Triggering();
            CollisionCheck(w).NullPattern? <==>
              tp.isRollingBase && w.registry.Some? && tp.fileNamePattern.None? && w.registry.value != map[]
    ensures var tp, r := w.Triggering(), CollisionCheck(w);
            r.Checked? ==>
              (r.collision <==> tp.isRollingBase && w.registry.Some? && tp.fileNamePattern.Some?
                                && Owners(w.registry.value, tp.fileNamePattern.value) != {})
    ensures var tp, r := w.Triggering(), CollisionCheck(w);
            r.Checked? && tp.isRollingBase && w.registry.Some? ==>
              r.registry.Some? && StoredUnder(w.registry.value, r.registry.value, w.appender.name, tp.fileNamePattern)
    ensures var r := CollisionCheck(w);
            r.Checked? && (w.registry.None? || !w.Triggering().isRollingBase) ==> r.registry == w.registry
  {
  }

  /** Second check: the registry check neither throws nor finds a collision. */
  predicate NoRegistryCollision(w: World)
    requires w.HasTriggering()
  {
    CollisionCheck(w).Checked? && !CollisionCheck(w).collision
  }

  /**
   * checkForFileAndPatternCollisions: the raw File property matches the regex
   * form of the triggering policy's pattern; `matches` stands for
   * `fileName.matches(pattern.toRegex())`.
   */
  function FileMatchesPattern(w: World, matches: (string, FileNamePattern) -> bool): (r: bool)
    requires w.HasTriggering()
    ensures !w.Triggering().isRollingBase || w.Triggering().fileNamePattern.None? || w.appender.fileName.None? ==> !r
    ensures r ==> matches(w.appender.fileName.value, w.Triggering().fileNamePattern.value)
    ensures (&& w.Triggering().isRollingBase && w.Triggering().fileNamePattern.Some? && w.appender.fileName.Some?
             && matches(w.appender.fileName.value, w.Triggering().fileNamePattern.value)) ==> r
  {
    var tp := w.Triggering();
    tp.isRollingBase && tp.fileNamePattern.Some? && w.appender.fileName.Some?
    && matches(w.appender.fileName.value, tp.fileNamePattern.value)
  }

  /** Last check: prudent mode does not go with compression. */
  predicate PrudentCompatible(w: World)
    requires w.HasRolling()
  {
    !(w.appender.prudent && w.Rolling().compression != NoCompression)
  }

  /**
   * The file line 101 names: getFile once prudent mode has cleared the File
   * property. In prudent mode that is the rolling policy's own name, whatever
   * the property said; otherwise it is getFile as it stands.
   */
  function StartFile(w: World): (r: string)
    requires w.HasRolling()
    ensures w.appender.prudent ==> r == w.Rolling().activeFileName
    ensures !w.appender.prudent ==> r == GetFile(w)
  {
    GetFile(if w.appender.prudent then w.(appender := w.appender.(fileName := None)) else w)
  }

  /** Every startup check passes. */
  predicate StartConditions(w: World, matches: (string, FileNamePattern) -> bool)
  {
    && TriggerReady(w)
    && NoRegistryCollision(w)
    && w.HasRolling()
    && !FileMatchesPattern(w, matches)
    && PrudentCompatible(w)
  }

  /**
   * Lines 101-104: the active file becomes the rolling policy's active file,
   * the length counter takes in that file's existing length, and the
   * superclass start opens it; `superStartOk` is whether that start succeeds.
   */
  function Activate(w: World, superStartOk: bool): (r: Step)
    requires w.Valid() && w.HasRolling() && w.HasTriggering()
    ensures r.world.Valid()
    ensures r.world.appender.rollingPolicy == w.appender.rollingPolicy
    ensures r.world.appender.triggeringPolicy == w.appender.triggeringPolicy
    ensures r.world.appender.started == (w.appender.started || superStartOk)
  {
    var active := GetFile(w);
    var init := InitializeLengthCounter(w.(appender := w.appender.(currentlyActiveFile := Some(active))));
    var w2 := init.world;
    var a := w2.appender.(started := w2.appender.started || superStartOk,
                          stream := if superStartOk then Some(active) else w2.appender.stream,
                          io := w2.appender.io + [OpenFile(active, superStartOk)]);
    Step(w2.(appender := a), [ActiveFileName(active)] + init.diags)
  }

  /** Lines 90-104: prudent mode clears the File property and refuses compression. */
  function StartPrudence(w: World, superStartOk: bool): (r: Step)
    requires w.Valid() && w.HasRolling() && w.HasTriggering()
    ensures r.world.Valid()
    ensures r.world.appender.rollingPolicy == w.appender.rollingPolicy
    ensures r.world.appender.triggeringPolicy == w.appender.triggeringPolicy
    ensures r.world.appender.started == (w.appender.started || (PrudentCompatible(w) && superStartOk))
  {
    var cleared := w.appender.prudent && w.appender.fileName.Some?;
    var w1 := if cleared then SetFile(w, None).world else w;
    var d1 := if cleared then [FileClearedForPrudentMode] else [];
    if !PrudentCompatible(w) then Step(w1, d1 + [CompressionInPrudentMode])
    else
      var s := Activate(w1, superStartOk);
      Step(s.world, d1 + s.diags)
  }

  /** Lines 71-104: append is forced, then the rolling policy and the File property are checked. */
  function StartAfterRegistry(w: World, matches: (string, FileNamePattern) -> bool, superStartOk: bool): (r: Step)
    requires w.Valid() && w.HasTriggering()
    ensures r.world.Valid()
    ensures r.world.appender.rollingPolicy == w.appender.rollingPolicy
    ensures r.world.appender.triggeringPolicy == w.appender.triggeringPolicy
    ensures r.world.appender.started ==
              (w.appender.started
               || (w.HasRolling() && !FileMatchesPattern(w, matches) && PrudentCompatible(w) && superStartOk))
  {
    var forced := if w.appender.append then [] else [AppendForced];
    var w1 := w.(appender := w.appender.(append := true));
    if !w.HasRolling() then Step(w1, forced + [NoRollingPolicy])
    else if FileMatchesPattern(w1, matches) then Step(w1, forced + [FileCollidesWithPattern])
    else
      var s := StartPrudence(w1, superStartOk);
      Step(s.world, forced + s.diags)
  }

  /**
   * start: the checks run in order and the first failure ends the call, but
   * what earlier checks did stays done: the registry entry, forced append mode
   * and the cleared File property. `matches` is the regex test of the File
   * property against the pattern; `superStartOk` whether the superclass start
   * succeeds. A not yet started appender comes to be started exactly when
   * every check passes and the superclass start succeeds.
   */
  function Start(w: World, matches: (string, FileNamePattern) -> bool, superStartOk: bool): (r: Step)
    requires w.Valid()
    ensures r.world.Valid()
    ensures r.world.appender.rollingPolicy == w.appender.rollingPolicy
    ensures r.world.appender.triggeringPolicy == w.appender.triggeringPolicy
    ensures !w.appender.started ==> (r.world.appender.started <==> StartConditions(w, matches) && superStartOk)
  {
    if !TriggerReady(w) then
      Step(w, [if w.appender.triggeringPolicy.None? then NoTriggeringPolicy else TriggeringPolicyNotStarted])
    else
      match CollisionCheck(w)
      case NullPattern => Step(w, [UncaughtNullPointer])
      case Checked(collision, owners, registry) =>
        if collision then Step(w.(registry := registry), [PatternCollisions(owners), CollisionsWithEarlierAppenders])
        else StartAfterRegistry(w.(registry := registry), matches, superStartOk)
  }

  /** The first two checks, and a registry check that throws, end start without any effect. */
  lemma StartAbortsEarlyWithoutEffect(w: World, matches: (string, FileNamePattern) -> bool, superStartOk: bool)
    requires w.Valid()
    ensures !TriggerReady(w) ==>
              Start(w, matches, superStartOk) ==
                Step(w, [if w.appender.triggeringPolicy.None? then NoTriggeringPolicy else TriggeringPolicyNotStarted])
    ensures TriggerReady(w) && CollisionCheck(w).NullPattern? ==>
              Start(w, matches, superStartOk) == Step(w, [UncaughtNullPointer])
    ensures TriggerReady(w) && CollisionCheck(w).Checked? && CollisionCheck(w).collision ==>
              && Start(w, matches, superStartOk).world.appender == w.appender
              && Start(w, matches, superStartOk).diags ==
                   [PatternCollisions(CollisionCheck(w).owners), CollisionsWithEarlierAppenders]
  {
  }

  /**
   * Once the first check passes, a triggering policy extending
   * RollingPolicyBase has its pattern stored under the appender's name,
   * whether or not a collision was found; otherwise the registry is untouched.
   */
  lemma StartRegistersPattern(w: World, matches: (string, FileNamePattern) -> bool, superStartOk: bool)
    requires w.Valid()
    ensures TriggerReady(w) && w.Triggering().isRollingBase && w.registry.Some? && !CollisionCheck(w).NullPattern? ==>
              && Start(w, matches, superStartOk).world.registry.Some?
              && StoredUnder(w.registry.value, Start(w, matches, superStartOk).world.registry.value,
                             w.appender.name, w.Triggering().fileNamePattern)
    ensures !(TriggerReady(w) && w.Triggering().isRollingBase && w.registry.Some? && !CollisionCheck(w).NullPattern?) ==>
              Start(w, matches, superStartOk).world.registry == w.registry
  {
    if TriggerReady(w) {
      StartKeepsTrigger(w, matches, superStartOk);
      CollisionCheckReadsTriggeringPolicy(w);
    }
  }

  /** Append mode is forced once the registry check is passed, whatever check fails later. */
  lemma StartForcesAppend(w: World, matches: (string, FileNamePattern) -> bool, superStartOk: bool)
    requires w.Valid()
    ensures TriggerReady(w) && NoRegistryCollision(w) ==> Start(w, matches, superStartOk).world.appender.append
    ensures !(TriggerReady(w) && NoRegistryCollision(w)) ==>
              Start(w, matches, superStartOk).world.appender.append == w.appender.append
  {
  }

  /** The forced append mode is reported exactly when it changes the setting. */
  lemma StartWarnsForcedAppend(w: World, matches: (string, FileNamePattern) -> bool, superStartOk: bool)
    requires w.Valid()
    ensures AppendForced in Start(w, matches, superStartOk).diags <==>
              TriggerReady(w) && NoRegistryCollision(w) && !w.appender.append
  {
    if TriggerReady(w) && NoRegistryCollision(w) {
      var w1 := w.(registry := CollisionCheck(w).registry);
      var w2 := w1.(appender := w1.appender.(append := true));
      var forced := if w.appender.append then [] else [AppendForced];
      assert Start(w, matches, superStartOk) == StartAfterRegistry(w1, matches, superStartOk);
      if w.HasRolling() && !FileMatchesPattern(w, matches) {
        StartPrudenceQuiet(w2, superStartOk);
        assert StartAfterRegistry(w1, matches, superStartOk).diags == forced + StartPrudence(w2, superStartOk).diags;
      }
    }
  }

  /** The prudence checks and the activation never report forced append. */
  lemma StartPrudenceQuiet(w: World, superStartOk: bool)
    requires w.Valid() && w.HasRolling() && w.HasTriggering()
    ensures AppendForced !in StartPrudence(w, superStartOk).diags
  {
    var cleared := w.appender.prudent && w.appender.fileName.Some?;
    var w1 := if cleared then SetFile(w, None).world else w;
    if PrudentCompatible(w) {
      var init := InitializeLengthCounter(w1.(appender := w1.appender.(currentlyActiveFile := Some(GetFile(w1)))));
      assert AppendForced !in init.diags;
    }
  }

  /** The later checks each end start with their own error as the last message. */
  lemma StartReportsFailedCheck(w: World, matches: (string, FileNamePattern) -> bool, superStartOk: bool)
    requires w.Valid() && TriggerReady(w) && NoRegistryCollision(w)
    ensures !w.HasRolling() ==> EndsWith(Start(w, matches, superStartOk).diags, NoRollingPolicy)
    ensures w.HasRolling() && FileMatchesPattern(w, matches) ==>
              EndsWith(Start(w, matches, superStartOk).diags, FileCollidesWithPattern)
    ensures w.HasRolling() && !FileMatchesPattern(w, matches) && !PrudentCompatible(w) ==>
              EndsWith(Start(w, matches, superStartOk).diags, CompressionInPrudentMode)
  {
  }

  /**
   * Prudent mode clears the File property once the earlier checks pass, and
   * does so before compression is refused.
   */
  lemma StartClearsFileInPrudentMode(w: World, matches: (string, FileNamePattern) -> bool, superStartOk: bool)
    requires w.Valid()
    ensures Start(w, matches, superStartOk).world.appender.fileName ==
              (if TriggerReady(w) && NoRegistryCollision(w) && w.HasRolling() && !FileMatchesPattern(w, matches)
                  && w.appender.prudent
               then None else w.appender.fileName)
  {
  }

  /** Clearing the File property is reported exactly when there was one to clear. */
  lemma StartWarnsClearedFile(w: World, matches: (string, FileNamePattern) -> bool, superStartOk: bool)
    requires w.Valid()
    ensures FileClearedForPrudentMode in Start(w, matches, superStartOk).diags <==>
              TriggerReady(w) && NoRegistryCollision(w) && w.HasRolling() && !FileMatchesPattern(w, matches)
              && w.appender.prudent && w.appender.fileName.Some?
  {
    if TriggerReady(w) && NoRegistryCollision(w) {
      var w1 := w.(registry := CollisionCheck(w).registry);
      var w2 := w1.(appender := w1.appender.(append := true));
      var forced := if w.appender.append then [] else [AppendForced];
      assert Start(w, matches, superStartOk) == StartAfterRegistry(w1, matches, superStartOk);
      if w.HasRolling() && !FileMatchesPattern(w, matches) {
        assert StartAfterRegistry(w1, matches, superStartOk).diags == forced + StartPrudence(w2, superStartOk).diags;
        PrudenceWarnsCleared(w2, superStartOk);
      }
    }
  }

  /** The prudence step reports clearing exactly when it clears a File property. */
  lemma PrudenceWarnsCleared(w: World, superStartOk: bool)
    requires w.Valid() && w.HasRolling() && w.HasTriggering()
    ensures FileClearedForPrudentMode in StartPrudence(w, superStartOk).diags <==>
              w.appender.prudent && w.appender.fileName.Some?
  {
    var cleared := w.appender.prudent && w.appender.fileName.Some?;
    var w1 := if cleared then SetFile(w, None).world else w;
    var d1 := if cleared then [FileClearedForPrudentMode] else [];
    if PrudentCompatible(w) {
      ActivateQuiet(w1, superStartOk);
      assert StartPrudence(w, superStartOk).diags == d1 + Activate(w1, superStartOk).diags;
    }
  }

  /** Activation reports the active file and its initial length, nothing else. */
  lemma ActivateQuiet(w: World, superStartOk: bool)
    requires w.Valid() && w.HasRolling() && w.HasTriggering()
    ensures forall d :: d in Activate(w, superStartOk).diags ==> d.ActiveFileName? || d.InitialFileLength?
  {
  }

  /**
   * From `w` to `w2` the triggering slot, the triggering policy apart from
   * its byte counter, the appender's name and the registry stay as they were.
   */
  predicate KeepsTrigger(w: World, w2: World)
    requires w.HasTriggering()
  {
    && w2.HasTriggering()
    && w2.appender.triggeringPolicy == w.appender.triggeringPolicy
    && w2.Triggering() == w.Triggering().(lengthCounter := w2.Triggering().lengthCounter)
    && w2.appender.name == w.appender.name
    && w2.registry == w.registry
  }

  lemma ActivateKeepsTrigger(w: World, superStartOk: bool)
    requires w.Valid() && w.HasRolling() && w.HasTriggering()
    ensures KeepsTrigger(w, Activate(w, superStartOk).world)
  {
    var w1 := w.(appender := w.appender.(currentlyActiveFile := Some(GetFile(w))));
    assert Activate(w, superStartOk).world.policies == InitializeLengthCounter(w1).world.policies;
  }

  lemma PrudenceKeepsTrigger(w: World, superStartOk: bool)
    requires w.Valid() && w.HasRolling() && w.HasTriggering()
    ensures KeepsTrigger(w, StartPrudence(w, superStartOk).world)
  {
    var w1 := if w.appender.prudent && w.appender.fileName.Some? then SetFile(w, None).world else w;
    assert w1.policies == w.policies && w1.appender.(fileName := w.appender.fileName) == w.appender;
    assert KeepsTrigger(w, w1);
    if PrudentCompatible(w) {
      var w2 := Activate(w1, superStartOk).world;
      assert StartPrudence(w, superStartOk).world == w2;
      ActivateKeepsTrigger(w1, superStartOk);
      KeepsTriggerTrans(w, w1, w2);
    } else {
      assert StartPrudence(w, superStartOk).world == w1;
    }
  }

  lemma KeepsTriggerTrans(w0: World, w1: World, w2: World)
    requires w0.HasTriggering() && KeepsTrigger(w0, w1) && KeepsTrigger(w1, w2)
    ensures KeepsTrigger(w0, w2)
  {
  }

  lemma AfterRegistryKeepsTrigger(w: World, matches: (string, FileNamePattern) -> bool, superStartOk: bool)
    requires w.Valid() && w.HasTriggering()
    ensures KeepsTrigger(w, StartAfterRegistry(w, matches, superStartOk).world)
  {
    var w1 := w.(appender := w.appender.(append := true));
    if w.HasRolling() && !FileMatchesPattern(w1, matches) {
      PrudenceKeepsTrigger(w1, superStartOk);
    }
  }

  /**
   * Start changes nothing about the triggering policy but its byte counter,
   * keeps the name, and leaves the registry as the registry check left it.
   */
  lemma StartKeepsTrigger(w: World, matches: (string, FileNamePattern) -> bool, superStartOk: bool)
    requires w.Valid() && w.HasTriggering()
    ensures var w1 := if TriggerReady(w) && CollisionCheck(w).Checked? then w.(registry := CollisionCheck(w).registry) else w;
            KeepsTrigger(w1, Start(w, matches, superStartOk).world)
  {
    if TriggerReady(w) && NoRegistryCollision(w) {
      AfterRegistryKeepsTrigger(w.(registry := CollisionCheck(w).registry), matches, superStartOk);
    }
  }

  /** A start that fails a check touches neither the stream, the active file nor the counter. */
  lemma StartFailureLeavesStreamAndCounter(w: World, matches: (string, FileNamePattern) -> bool, superStartOk: bool)
    requires w.Valid() && !StartConditions(w, matches)
    ensures Start(w, matches, superStartOk).world.appender.started == w.appender.started
    ensures Start(w, matches, superStartOk).world.appender.stream == w.appender.stream
    ensures Start(w, matches, superStartOk).world.appender.currentlyActiveFile == w.appender.currentlyActiveFile
    ensures Start(w, matches, superStartOk).world.Counter() == w.Counter()
  {
  }

  /**
   * A start that passes every check takes the file getFile names after prudent
   * mode has cleared the File property, counts that file's existing length
   * once, and opens the stream on it.
   */
  lemma StartActivates(w: World, matches: (string, FileNamePattern) -> bool, superStartOk: bool)
    requires w.Valid() && StartConditions(w, matches)
    ensures Start(w, matches, superStartOk).world.appender.currentlyActiveFile == Some(StartFile(w))
    ensures Start(w, matches, superStartOk).world.appender.stream ==
              (if superStartOk then Some(StartFile(w)) else w.appender.stream)
    ensures Start(w, matches, superStartOk).world.Counter() ==
              (if w.Counter().Some? && StartFile(w) in w.fileLengths
               then Some(w.Counter().value + w.fileLengths[StartFile(w)]) else w.Counter())
    ensures ActiveFileName(StartFile(w)) in Start(w, matches, superStartOk).diags
  {
    var w1 := w.(registry := CollisionCheck(w).registry);
    assert Start(w, matches, superStartOk) == StartAfterRegistry(w1, matches, superStartOk);
    AfterRegistryActivates(w1, matches, superStartOk);
  }

  /** Past the registry check, the remaining checks pass and end in activation. */
  lemma AfterRegistryActivates(w: World, matches: (string, FileNamePattern) -> bool, superStartOk: bool)
    requires w.Valid() && w.HasRolling() && w.HasTriggering()
    requires !FileMatchesPattern(w, matches) && PrudentCompatible(w)
    ensures StartAfterRegistry(w, matches, superStartOk).world.appender.currentlyActiveFile == Some(StartFile(w))
    ensures StartAfterRegistry(w, matches, superStartOk).world.appender.stream ==
              (if superStartOk then Some(StartFile(w)) else w.appender.stream)
    ensures StartAfterRegistry(w, matches, superStartOk).world.Counter() ==
              (if w.Counter().Some? && StartFile(w) in w.fileLengths
               then Some(w.Counter().value + w.fileLengths[StartFile(w)]) else w.Counter())
    ensures ActiveFileName(StartFile(w)) in StartAfterRegistry(w, matches, superStartOk).diags
  {
    var w1 := w.(appender := w.appender.(append := true));
    var forced := if w.appender.append then [] else [AppendForced];
    assert StartAfterRegistry(w, matches, superStartOk) ==
             Step(StartPrudence(w1, superStartOk).world, forced + StartPrudence(w1, superStartOk).diags);
    assert StartFile(w1) == StartFile(w) && w1.Counter() == w.Counter();
    PrudenceActivates(w1, superStartOk);
  }

  /** Past the compression check, the prudence step ends in activation, File property aside. */
  lemma PrudenceActivates(w: World, superStartOk: bool)
    requires w.Valid() && w.HasRolling() && w.HasTriggering() && PrudentCompatible(w)
    ensures StartPrudence(w, superStartOk).world.appender.currentlyActiveFile == Some(StartFile(w))
    ensures StartPrudence(w, superStartOk).world.appender.stream ==
              (if superStartOk then Some(StartFile(w)) else w.appender.stream)
    ensures StartPrudence(w, superStartOk).world.Counter() ==
              (if w.Counter().Some? && StartFile(w) in w.fileLengths
               then Some(w.Counter().value + w.fileLengths[StartFile(w)]) else w.Counter())
    ensures ActiveFileName(StartFile(w)) in StartPrudence(w, superStartOk).diags
  {
    var cleared := w.appender.prudent && w.appender.fileName.Some?;
    var w1 := if cleared then SetFile(w, None).world else w;
    var d1 := if cleared then [FileClearedForPrudentMode] else [];
    assert StartPrudence(w, superStartOk) == Step(Activate(w1, superStartOk).world, d1 + Activate(w1, superStartOk).diags);
    assert GetFile(w1) == StartFile(w) && w1.Counter() == w.Counter();
    ActivateEffects(w1, superStartOk);
  }

  /** Lines 101-104 on their own: what activation does to the appender and the counter. */
  lemma ActivateEffects(w: World, superStartOk: bool)
    requires w.Valid() && w.HasRolling() && w.HasTriggering()
    ensures Activate(w, superStartOk).world.appender.currentlyActiveFile == Some(GetFile(w))
    ensures Activate(w, superStartOk).world.appender.stream ==
              (if superStartOk then Some(GetFile(w)) else w.appender.stream)
    ensures Activate(w, superStartOk).world.Counter() ==
              (if w.Counter().Some? && GetFile(w) in w.fileLengths
               then Some(w.Counter().value + w.fileLengths[GetFile(w)]) else w.Counter())
    ensures ActiveFileName(GetFile(w)) in Activate(w, superStartOk).diags
  {
    var w1 := w.(appender := w.appender.(currentlyActiveFile := Some(GetFile(w))));
    assert w1.Counter() == w.Counter();
    var init := InitializeLengthCounter(w1);
    assert init.world.appender.stream == w.appender.stream;
    assert Activate(w, superStartOk).diags[0] == ActiveFileName(GetFile(w));
  }

  // ----- Shutdown ----------------------------------------------------------

  /**
   * stop: a no-op unless started. Otherwise the superclass stops (the stream
   * is closed), both policies stop, and this name's registry entry is removed.
   */
  function Stop(w: World): (r: World)
    requires w.Valid()
    ensures r.Valid()
    ensures !w.appender.started ==> r == w
    ensures w.appender.started ==> !r.appender.started && r.appender.stream.None?
    ensures w.appender.started ==>
              r.policies.Keys == w.policies.Keys
              && forall ref :: ref in w.policies ==>
                   r.policies[ref] ==
                     (if Some(ref) == w.appender.rollingPolicy || Some(ref) == w.appender.triggeringPolicy
                      then w.policies[ref].(started := false) else w.policies[ref])
    ensures w.appender.started && w.registry.Some? && w.appender.name.Some? ==>
              r.registry.Some? && RemovedFrom(w.registry.value, r.registry.value, w.appender.name.value)
    ensures w.registry.None? || w.appender.name.None? ==> r.registry == w.registry
    ensures r.appender.(started := w.appender.started, stream := w.appender.stream, io := w.appender.io) == w.appender
    ensures r.fileLengths == w.fileLengths
  {
    if !w.appender.started then w
    else
      var a := w.appender.(started := false, stream := None, io := w.appender.io + [CloseStream]);
      var reg := if w.registry.Some? && w.appender.name.Some? then Some(w.registry.value - {w.appender.name.value})
                 else w.registry;
      World(a, StopPolicies(w), reg, w.fileLengths)
  }

  /** The policy objects once the policies in both slots have been stopped. */
  function StopPolicies(w: World): (ps: map<Ref, Policy>)
    requires w.Valid()
    ensures ps.Keys == w.policies.Keys
    ensures forall ref :: ref in w.policies ==>
              ps[ref] ==
                (if Some(ref) == w.appender.rollingPolicy || Some(ref) == w.appender.triggeringPolicy
                 then w.policies[ref].(started := false) else w.policies[ref])
  {
    var ps := if w.HasRolling() then w.policies[w.appender.rollingPolicy.value := w.Rolling().(started := false)]
              else w.policies;
    if w.HasTriggering()
    then ps[w.appender.triggeringPolicy.value := ps[w.appender.triggeringPolicy.value].(started := false)]
    else ps
  }
}
