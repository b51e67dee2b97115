/**
 * Properties that relate several calls of the appender: record traces,
 * start/stop round trips on the shared registry, and policy rewiring.
 */
module AppenderProperties {
  import opened Wrappers
  import opened Policies
  import opened CollisionRegistry
  import opened AppenderState
  import opened RollingFileAppender

  /** What the collaborators do while one record is appended. */
  datatype RecordOutcome = RecordOutcome(roll: RollOutcome, openOk: bool)

  /**
   * A sequence of records appended one after the other, each through
   * subAppend. The wiring, the life-cycle flag and the registry stay as they
   * are, and the log only grows.
   */
  function AppendAll<E>(w: World, events: seq<E>, trigger: (Option<string>, E) -> bool, encode: E -> seq<bv8>,
                        outcomes: seq<RecordOutcome>): (r: Step)
    requires w.Valid() && w.appender.triggeringPolicy.Some? && w.appender.rollingPolicy.Some?
    requires |outcomes| == |events|
    ensures r.world.Valid() && r.world.HasTriggering()
    ensures r.world.appender.rollingPolicy == w.appender.rollingPolicy
    ensures r.world.appender.triggeringPolicy == w.appender.triggeringPolicy
    ensures r.world.appender.started == w.appender.started
    ensures r.world.registry == w.registry
    ensures |w.appender.io| <= |r.world.appender.io| && r.world.appender.io[..|w.appender.io|] == w.appender.io
    decreases |events|
  {
    if events == [] then Step(w, [])
    else
      var s1 := SubAppend(w, events[0], trigger, encode, outcomes[0].roll, outcomes[0].openOk);
      var s2 := AppendAll(s1.world, events[1..], trigger, encode, outcomes[1..]);
      LogExtension(w.appender.io, s1.world.appender.io, s2.world.appender.io);
      Step(s2.world, s1.diags + s2.diags)
  }

  /** The log a trace adds to the appender's log. */
  function TraceLog<E>(w: World, events: seq<E>, trigger: (Option<string>, E) -> bool, encode: E -> seq<bv8>,
                       outcomes: seq<RecordOutcome>): seq<IoAction>
    requires w.Valid() && w.appender.triggeringPolicy.Some? && w.appender.rollingPolicy.Some?
    requires |outcomes| == |events|
  {
    AppendAll(w, events, trigger, encode, outcomes).world.appender.io[|w.appender.io|..]
  }

  /** Over a trace, the rolling policy is asked to roll over at most once per record. */
  lemma {:induction false} AtMostOneRolloverPerRecord<E>(w: World, events: seq<E>, trigger: (Option<string>, E) -> bool,
                                                         encode: E -> seq<bv8>, outcomes: seq<RecordOutcome>)
    requires w.Valid() && w.appender.triggeringPolicy.Some? && w.appender.rollingPolicy.Some?
    requires |outcomes| == |events|
    ensures Rollovers(TraceLog(w, events, trigger, encode, outcomes)) <= |events|
    decreases |events|
  {
    if events == [] {
      assert TraceLog(w, events, trigger, encode, outcomes) == [];
    } else {
      var s1 := SubAppend(w, events[0], trigger, encode, outcomes[0].roll, outcomes[0].openOk);
      var io0 := w.appender.io;
      var io1 := s1.world.appender.io;
      var io2 := AppendAll(s1.world, events[1..], trigger, encode, outcomes[1..]).world.appender.io;
      assert AppendAll(w, events, trigger, encode, outcomes).world.appender.io == io2;
      LogExtension(io0, io1, io2);
      assert TraceLog(w, events, trigger, encode, outcomes) == io1[|io0|..] + io2[|io1|..];
      TriggerPrecedesWrite(w, events[0], trigger, encode, outcomes[0].roll, outcomes[0].openOk);
      AtMostOneRolloverPerRecord(s1.world, events[1..], trigger, encode, outcomes[1..]);
      RolloversAppend(io1[|io0|..], io2[|io1|..]);
    }
  }

  /** Over a trace, the byte counter grows by exactly the bytes written to the stream. */
  lemma {:induction false} CounterTracksWrittenBytes<E>(w: World, events: seq<E>, trigger: (Option<string>, E) -> bool,
                                                        encode: E -> seq<bv8>, outcomes: seq<RecordOutcome>)
    requires w.Valid() && w.appender.triggeringPolicy.Some? && w.appender.rollingPolicy.Some?
    requires |outcomes| == |events|
    ensures CounterFollows(w, AppendAll(w, events, trigger, encode, outcomes).world)
    decreases |events|
  {
    if events == [] {
      assert w.appender.io[|w.appender.io|..] == [];
    } else {
      var s1 := SubAppend(w, events[0], trigger, encode, outcomes[0].roll, outcomes[0].openOk);
      var last := AppendAll(s1.world, events[1..], trigger, encode, outcomes[1..]).world;
      CounterTracksRecord(w, events[0], trigger, encode, outcomes[0].roll, outcomes[0].openOk);
      CounterTracksWrittenBytes(s1.world, events[1..], trigger, encode, outcomes[1..]);
      CounterFollowsTrans(w, s1.world, last);
      assert AppendAll(w, events, trigger, encode, outcomes).world == last;
    }
  }
  /**
   * initializeLengthCounter and the trace together: after a start that passes
   * every check and any trace of records, the counter holds its value before
   * start, the existing length of the file start opened, and every byte the
   * trace wrote.
   */
  lemma StartThenTraceCountsBytes<E>(w: World, matches: (string, FileNamePattern) -> bool, superStartOk: bool,
                                     events: seq<E>, trigger: (Option<string>, E) -> bool, encode: E -> seq<bv8>,
                                     outcomes: seq<RecordOutcome>)
    requires w.Valid() && StartConditions(w, matches)
    requires |outcomes| == |events|
    ensures var s := Start(w, matches, superStartOk).world;
            s.Valid() && s.HasTriggering() && s.HasRolling()
    ensures var s := Start(w, matches, superStartOk).world;
            w.Counter().None? ==> AppendAll(s, events, trigger, encode, outcomes).world.Counter().None?
    ensures var s, f := Start(w, matches, superStartOk).world, StartFile(w);
            w.Counter().Some? ==>
              && AppendAll(s, events, trigger, encode, outcomes).world.Counter().Some?
              && AppendAll(s, events, trigger, encode, outcomes).world.Counter().value ==
                   w.Counter().value + (if f in w.fileLengths then w.fileLengths[f] else 0)
                   + WrittenBytes(TraceLog(s, events, trigger, encode, outcomes))
  {
    var s := Start(w, matches, superStartOk).world;
    StartActivates(w, matches, superStartOk);
    TraceCountsFrom(s, events, trigger, encode, outcomes);
  }

  /** The counter after a trace, read off the counter before it. */
  lemma TraceCountsFrom<E>(w: World, events: seq<E>, trigger: (Option<string>, E) -> bool, encode: E -> seq<bv8>,
                           outcomes: seq<RecordOutcome>)
    requires w.Valid() && w.HasTriggering() && w.HasRolling()
    requires |outcomes| == |events|
    ensures w.Counter().None? ==> AppendAll(w, events, trigger, encode, outcomes).world.Counter().None?
    ensures w.Counter().Some? ==>
              && AppendAll(w, events, trigger, encode, outcomes).world.Counter().Some?
              && AppendAll(w, events, trigger, encode, outcomes).world.Counter().value ==
                   w.Counter().value + WrittenBytes(TraceLog(w, events, trigger, encode, outcomes))
  {
    CounterTracksWrittenBytes(w, events, trigger, encode, outcomes);
  }



  /** Two successive extensions of a log make one extension by the two added parts. */
  lemma LogExtension(io0: seq<IoAction>, io1: seq<IoAction>, io2: seq<IoAction>)
    requires |io0| <= |io1| && io1[..|io0|] == io0
    requires |io1| <= |io2| && io2[..|io1|] == io1
    ensures |io0| <= |io2| && io2[..|io0|] == io0
    ensures io2[|io0|..] == io1[|io0|..] + io2[|io1|..]
  {
    assert io2[..|io0|] == io2[..|io1|][..|io0|];
  }

  /**
   * setFile reaches getFile only through a rolling policy that follows the
   * File property: such a policy answers the new property while it is set and
   * its own name once it is cleared; any other policy keeps its answer.
   */
  lemma GetFileAfterSetFile(w: World, file: Option<string>)
    requires w.HasRolling()
    ensures SetFile(w, file).world.HasRolling()
    ensures w.Rolling().followsRawFile && file.Some? ==> GetFile(SetFile(w, file).world) == file.value
    ensures w.Rolling().followsRawFile && file.None? ==> GetFile(SetFile(w, file).world) == w.Rolling().activeFileName
    ensures !w.Rolling().followsRawFile ==> GetFile(SetFile(w, file).world) == GetFile(w)
  {
  }

  /** Stopping twice is stopping once. */
  lemma StopIsIdempotent(w: World)
    requires w.Valid()
    ensures Stop(Stop(w)) == Stop(w)
  {
  }

  /**
   * Start then stop of a named appender whose name was not registered leaves
   * the registry as it found it: the entry start stores is the one stop removes.
   */
  lemma StopUndoesStartRegistration(w: World, matches: (string, FileNamePattern) -> bool)
    requires w.Valid() && !w.appender.started
    requires w.appender.name.Some? && w.registry.Some? && w.appender.name.value !in w.registry.value
    requires StartConditions(w, matches)
    ensures Start(w, matches, true).world.appender.started
    ensures Stop(Start(w, matches, true).world).registry == w.registry
  {
    StartRegistersPattern(w, matches, true);
    var r := Start(w, matches, true).world;
    var name := w.appender.name.value;
    assert r.appender.name == w.appender.name && r.registry.Some?;
    RemovingTheStoredEntryRestores(w.registry.value, r.registry.value, Stop(r).registry.value, name,
                                   w.Triggering().fileNamePattern);
  }

  /** Removing the entry just stored under a fresh name gives back the registry before the store. */
  lemma RemovingTheStoredEntryRestores(m: Registry, m1: Registry, m2: Registry, name: string,
                                       pattern: Option<FileNamePattern>)
    requires name !in m
    requires m1 == m || StoredUnder(m, m1, Some(name), pattern)
    requires RemovedFrom(m1, m2, name)
    ensures m2 == m
  {
    assert forall k :: k in m2 <==> k in m;
    assert forall k :: k in m2 ==> m2[k] == m1[k] == m[k];
  }

  /**
   * Two appenders with the same pattern, sharing one registry: once the first
   * has registered its pattern, the second cannot start, and it reports the
   * first as the owner of the pattern. Swapping the order swaps the roles.
   */
  lemma LaterAppenderWithSamePatternFails(a: World, b: World, matches: (string, FileNamePattern) -> bool, p: FileNamePattern)
    requires a.Valid() && b.Valid() && !b.appender.started
    requires a.appender.name.Some? && a.registry.Some?
    requires TriggerReady(a) && a.Triggering().isRollingBase && a.Triggering().fileNamePattern == Some(p)
    requires TriggerReady(b) && b.Triggering().isRollingBase && b.Triggering().fileNamePattern == Some(p)
    requires b.registry == Start(a, matches, true).world.registry
    ensures !Start(b, matches, true).world.appender.started
    ensures CollisionCheck(b).Checked? && a.appender.name.value in CollisionCheck(b).owners
    ensures EndsWith(Start(b, matches, true).diags, CollisionsWithEarlierAppenders)
  {
    StartRegistersPattern(a, matches, true);
    StartAbortsEarlyWithoutEffect(b, matches, true);
    var m := Start(a, matches, true).world.registry.value;
    assert m[a.appender.name.value] == Some(p);
  }

  /**
   * An appender that passed the registry check, whether its start then
   * succeeded or failed a later check, finds its own registry entry when
   * started again without a stop in between, and reports a collision with
   * itself. After a failed start, stop is no help: it does nothing.
   */
  lemma RestartWithoutStopCollidesWithItself(w: World, matches: (string, FileNamePattern) -> bool, superStartOk: bool)
    requires w.Valid() && w.appender.name.Some? && w.registry.Some?
    requires TriggerReady(w) && NoRegistryCollision(w)
    requires w.Triggering().isRollingBase && w.Triggering().fileNamePattern.Some?
    ensures CollisionCheck(Start(w, matches, superStartOk).world).Checked?
    ensures w.appender.name.value in CollisionCheck(Start(w, matches, superStartOk).world).owners
    ensures Start(Start(w, matches, superStartOk).world, matches, superStartOk).world.registry ==
              Start(w, matches, superStartOk).world.registry
    ensures !w.appender.started && !Start(w, matches, superStartOk).world.appender.started ==>
              Stop(Start(w, matches, superStartOk).world) == Start(w, matches, superStartOk).world
  {
    var name, pattern := w.appender.name.value, w.Triggering().fileNamePattern;
    StartRegistersPattern(w, matches, superStartOk);
    StartKeepsTrigger(w, matches, superStartOk);
    var r := Start(w, matches, superStartOk).world;
    assert r.registry.value[name] == pattern;
    StartOnOwnEntry(r, matches, superStartOk);
  }

  /**
   * Start on a world whose registry already holds this appender's own
   * pattern under its name: it collides with itself and leaves the registry
   * as it was.
   */
  lemma StartOnOwnEntry(w: World, matches: (string, FileNamePattern) -> bool, superStartOk: bool)
    requires w.Valid() && w.appender.name.Some? && w.registry.Some?
    requires TriggerReady(w) && w.Triggering().isRollingBase && w.Triggering().fileNamePattern.Some?
    requires w.appender.name.value in w.registry.value
    requires w.registry.value[w.appender.name.value] == w.Triggering().fileNamePattern
    ensures CollisionCheck(w).Checked? && w.appender.name.value in CollisionCheck(w).owners
    ensures Start(w, matches, superStartOk).world.registry == w.registry
  {
    var name, pattern := w.appender.name.value, w.Triggering().fileNamePattern;
    var m := w.registry.value;
    CollisionCheckReadsTriggeringPolicy(w);
    assert name in Owners(m, pattern.value);
    var c := CollisionCheck(w);
    assert Start(w, matches, superStartOk).world.registry == c.registry;
    var m2 := c.registry.value;
    assert StoredUnder(m, m2, Some(name), pattern);
    assert forall k :: k in m2 <==> k in m;
    assert forall k :: k in m2 ==> m2[k] == m[k];
    assert m2 == m;
  }

  /**
   * Replacing a double-duty policy through one setter leaves it in the other
   * slot: the warning is the only sign that the two slots now disagree.
   */
  lemma ReplacingDoubleDutyRollingPolicyKeepsOldTrigger(w: World, both: Ref, single: Ref)
    requires w.Valid()
    requires both in w.policies && w.policies[both].isRolling && w.policies[both].isTriggering
    requires single in w.policies && w.policies[single].isRolling && !w.policies[single].isTriggering
    ensures var s1 := SetRollingPolicy(w, Some(both));
            var s2 := SetRollingPolicy(s1.world, Some(single));
            && s1.world.appender.rollingPolicy == Some(both) && s1.world.appender.triggeringPolicy == Some(both)
            && s2.world.appender.rollingPolicy == Some(single) && s2.world.appender.triggeringPolicy == Some(both)
            && s2.diags == [RollingPolicyReplaced]
  {
  }

  /** The world with the rolling-slot policy's pattern replaced by `p`. */
  function PatchRollingPattern(w: World, p: Option<FileNamePattern>): World
    requires w.HasRolling()
  {
    w.(policies := w.policies[w.appender.rollingPolicy.value := w.Rolling().(fileNamePattern := p)])
  }

  /** The two slots hold different objects, both live. */
  predicate SeparateSlots(w: World)
  {
    w.Valid() && w.HasRolling() && w.HasTriggering() && w.appender.rollingPolicy != w.appender.triggeringPolicy
  }

  lemma PatchKeepsTrigger(w: World, p: Option<FileNamePattern>)
    requires SeparateSlots(w)
    ensures SeparateSlots(PatchRollingPattern(w, p))
    ensures PatchRollingPattern(w, p).Triggering() == w.Triggering()
    ensures PatchRollingPattern(w, p).Rolling() == w.Rolling().(fileNamePattern := p)
  {
  }

  lemma PatchCommutesWithCounter(w: World, p: Option<FileNamePattern>, c: Option<int>)
    requires SeparateSlots(w)
    ensures SeparateSlots(WithCounter(w, c))
    ensures PatchRollingPattern(w, p).HasTriggering()
    ensures WithCounter(PatchRollingPattern(w, p), c) == PatchRollingPattern(WithCounter(w, c), p)
  {
    var rp, tp := w.appender.rollingPolicy.value, w.appender.triggeringPolicy.value;
    var a := w.Rolling().(fileNamePattern := p);
    var b := w.Triggering().(lengthCounter := c);
    assert w.policies[rp := a][tp := b] == w.policies[tp := b][rp := a];
  }

  lemma PatchInitialize(w: World, p: Option<FileNamePattern>)
    requires SeparateSlots(w) && w.appender.currentlyActiveFile.Some?
    ensures SeparateSlots(InitializeLengthCounter(w).world)
    ensures InitializeLengthCounter(PatchRollingPattern(w, p)) ==
              Step(PatchRollingPattern(InitializeLengthCounter(w).world, p), InitializeLengthCounter(w).diags)
  {
    PatchKeepsTrigger(w, p);
    var r := InitializeLengthCounter(w);
    PatchCommutesWithCounter(w, p, r.world.Counter());
  }

  lemma PatchActivate(w: World, p: Option<FileNamePattern>, superStartOk: bool)
    requires SeparateSlots(w)
    ensures SeparateSlots(Activate(w, superStartOk).world)
    ensures Activate(PatchRollingPattern(w, p), superStartOk) ==
              Step(PatchRollingPattern(Activate(w, superStartOk).world, p), Activate(w, superStartOk).diags)
  {
    PatchKeepsTrigger(w, p);
    var w1 := w.(appender := w.appender.(currentlyActiveFile := Some(GetFile(w))));
    PatchInitialize(w1, p);
    assert PatchRollingPattern(w, p).(appender := w1.appender) == PatchRollingPattern(w1, p);
  }

  lemma PatchPrudence(w: World, p: Option<FileNamePattern>, superStartOk: bool)
    requires SeparateSlots(w)
    ensures SeparateSlots(StartPrudence(w, superStartOk).world)
    ensures StartPrudence(PatchRollingPattern(w, p), superStartOk) ==
              Step(PatchRollingPattern(StartPrudence(w, superStartOk).world, p), StartPrudence(w, superStartOk).diags)
  {
    PatchKeepsTrigger(w, p);
    var cleared := w.appender.prudent && w.appender.fileName.Some?;
    var w1 := if cleared then SetFile(w, None).world else w;
    assert (if cleared then SetFile(PatchRollingPattern(w, p), None).world else PatchRollingPattern(w, p))
           == PatchRollingPattern(w1, p);
    PatchActivate(w1, p, superStartOk);
  }

  lemma PatchAfterRegistry(w: World, p: Option<FileNamePattern>, matches: (string, FileNamePattern) -> bool,
                           superStartOk: bool)
    requires SeparateSlots(w)
    ensures SeparateSlots(StartAfterRegistry(w, matches, superStartOk).world)
    ensures StartAfterRegistry(PatchRollingPattern(w, p), matches, superStartOk) ==
              Step(PatchRollingPattern(StartAfterRegistry(w, matches, superStartOk).world, p),
                   StartAfterRegistry(w, matches, superStartOk).diags)
  {
    PatchKeepsTrigger(w, p);
    var w1 := w.(appender := w.appender.(append := true));
    assert PatchRollingPattern(w, p).(appender := w1.appender) == PatchRollingPattern(w1, p);
    PatchPrudence(w1, p, superStartOk);
  }

  /**
   * Only the triggering policy's pattern is consulted: when the rolling slot
   * holds another object, start on a world whose rolling policy has another
   * pattern does exactly what it does on the original, pattern aside.
   */
  lemma StartIgnoresRollingSlotPattern(w: World, p: Option<FileNamePattern>,
                                       matches: (string, FileNamePattern) -> bool, superStartOk: bool)
    requires SeparateSlots(w)
    ensures SeparateSlots(PatchRollingPattern(w, p))
    ensures CollisionCheck(PatchRollingPattern(w, p)) == CollisionCheck(w)
    ensures FileMatchesPattern(PatchRollingPattern(w, p), matches) == FileMatchesPattern(w, matches)
    ensures SeparateSlots(Start(w, matches, superStartOk).world)
    ensures Start(PatchRollingPattern(w, p), matches, superStartOk) ==
              Step(PatchRollingPattern(Start(w, matches, superStartOk).world, p), Start(w, matches, superStartOk).diags)
  {
    PatchKeepsTrigger(w, p);
    if TriggerReady(w) && CollisionCheck(w).Checked? {
      var w1 := w.(registry := CollisionCheck(w).registry);
      assert PatchRollingPattern(w, p).(registry := w1.registry) == PatchRollingPattern(w1, p);
      if !CollisionCheck(w).collision {
        PatchAfterRegistry(w1, p, matches, superStartOk);
      }
    }
  }
}
