/**
 * The state a RollingFileAppender works on: its own fields, the policy objects
 * it references, the context's collision registry and the lengths of the
 * files on disk. Every operation of the appender is a transition on a World.
 */
module AppenderState {
  import opened Wrappers
  import opened Policies
  import opened CollisionRegistry

  /** Kinds of status messages the appender adds; the texts are not modelled. */
  datatype Diagnostic =
    | NoTriggeringPolicy              // warning, no triggering policy set
    | TriggeringPolicyNotStarted      // warning
    | PatternCollisions(owners: set<string>)  // one error per earlier appender with the same pattern
    | CollisionsWithEarlierAppenders  // error, start aborted
    | UncaughtNullPointer             // start() left by an exception (null pattern compared)
    | AppendForced                    // warning, append was false
    | NoRollingPolicy                 // error
    | FileCollidesWithPattern         // error, the File property matches the pattern
    | FileClearedForPrudentMode       // warning
    | CompressionInPrudentMode        // error
    | ActiveFileName(path: string)    // info
    | InitialFileLength(path: string, length: nat)  // info
    | FileSetAfterPolicy              // error, File set after a policy
    | RolloverDeferred                // warning, the policy's rollover failed
    | ReopenFailed                    // error, opening the active file failed
    | RollingPolicyReplaced           // warning, a double-duty rolling policy was replaced
    | TriggeringPolicyReplaced        // warning, a double-duty triggering policy was replaced

  /** Physical actions on the output stream, logged in the order they happen. */
  datatype IoAction =
    | CloseStream
    | PolicyRollover(failed: bool)
    | OpenFile(path: string, ok: bool)
    | WriteBytes(path: string, bytes: seq<bv8>)

  /**
   * The appender's fields. `fileName` is the raw File property; `stream` is the
   * path the output stream is open on, or None when it is closed; `io` is the
   * log of physical actions so far.
   */
  datatype Appender = Appender(
    name: Option<string>,
    fileName: Option<string>,
    append: bool,
    prudent: bool,
    started: bool,
    rollingPolicy: Option<Ref>,
    triggeringPolicy: Option<Ref>,
    currentlyActiveFile: Option<string>,
    stream: Option<string>,
    io: seq<IoAction>)

  /**
   * An appender with its surroundings: the policy objects by reference, the
   * context's collision registry (absent when the context holds none) and the
   * length of each existing file.
   */
  datatype World = World(
    appender: Appender,
    policies: map<Ref, Policy>,
    registry: Option<Registry>,
    fileLengths: map<string, nat>)
  {
    predicate HasRolling() {
      appender.rollingPolicy.Some? && appender.rollingPolicy.value in policies
    }

    predicate HasTriggering() {
      appender.triggeringPolicy.Some? && appender.triggeringPolicy.value in policies
    }

    /**
     * The policy slots refer to live objects of the type each slot declares,
     * and every RollingPolicyBase object is a RollingPolicy.
     */
    predicate Valid() {
      && (appender.rollingPolicy.Some? ==> HasRolling() && Rolling().isRolling)
      && (appender.triggeringPolicy.Some? ==> HasTriggering() && Triggering().isTriggering)
      && (forall r :: r in policies && policies[r].isRollingBase ==> policies[r].isRolling)
    }

    function Rolling(): Policy
      requires HasRolling()
    {
      policies[appender.rollingPolicy.value]
    }

    function Triggering(): Policy
      requires HasTriggering()
    {
      policies[appender.triggeringPolicy.value]
    }

    /**
     * getLengthCounter(): the triggering policy's counter, or None when the
     * policy has none. The source dereferences the triggering policy here and
     * throws without one; every operation that models a call to it requires a
     * triggering policy, so the None answered without a policy is only a
     * convenience of the model.
     */
    function Counter(): Option<int>
    {
      if HasTriggering() then Triggering().lengthCounter else None
    }
  }

  /** The last status message added is `d`: the check that ended the call. */
  predicate EndsWith(diags: seq<Diagnostic>, d: Diagnostic)
  {
    diags != [] && diags[|diags| - 1] == d
  }

  /** The result of a transition: the new world and the status messages added. */
  datatype Step = Step(world: World, diags: seq<Diagnostic>)

  /** The number of rollovers requested from the rolling policy in `io`. */
  function Rollovers(io: seq<IoAction>): nat
  {
    if io == [] then 0
    else Rollovers(io[..|io| - 1]) + (if io[|io| - 1].PolicyRollover? then 1 else 0)
  }

  /** The number of bytes written to the output stream in `io`. */
  function WrittenBytes(io: seq<IoAction>): nat
  {
    if io == [] then 0
    else WrittenBytes(io[..|io| - 1]) + (if io[|io| - 1].WriteBytes? then |io[|io| - 1].bytes| else 0)
  }

  /** No rollover is requested after a write: every trigger precedes the write it guards. */
  predicate NoRolloverAfterWrite(io: seq<IoAction>)
  {
    forall i, j :: 0 <= i < j < |io| ==> !(io[i].WriteBytes? && io[j].PolicyRollover?)
  }

  lemma {:induction false} RolloversAppend(a: seq<IoAction>, b: seq<IoAction>)
    ensures Rollovers(a + b) == Rollovers(a) + Rollovers(b)
    decreases |b|
  {
    if b != [] {
      assert (a + b)[..|a + b| - 1] == a + b[..|b| - 1];
      RolloversAppend(a, b[..|b| - 1]);
    } else {
      assert a + b == a;
    }
  }

  lemma {:induction false} WrittenBytesAppend(a: seq<IoAction>, b: seq<IoAction>)
    ensures WrittenBytes(a + b) == WrittenBytes(a) + WrittenBytes(b)
    decreases |b|
  {
    if b != [] {
      assert (a + b)[..|a + b| - 1] == a + b[..|b| - 1];
      WrittenBytesAppend(a, b[..|b| - 1]);
    } else {
      assert a + b == a;
    }
  }

  /** `after` extends the log of `before`. */
  predicate Extends(before: World, after: World)
  {
    |before.appender.io| <= |after.appender.io| && after.appender.io[..|before.appender.io|] == before.appender.io
  }

  /**
   * From `before` to `after` the byte counter grew by exactly the bytes
   * written to the stream in between, or there was no counter at either end.
   */
  predicate CounterFollows(before: World, after: World)
  {
    && Extends(before, after)
    && after.Counter() == (if before.Counter().Some?
                           then Some(before.Counter().value + WrittenBytes(after.appender.io[|before.appender.io|..]))
                           else None)
  }

  lemma CounterFollowsTrans(w0: World, w1: World, w2: World)
    requires CounterFollows(w0, w1) && CounterFollows(w1, w2)
    ensures CounterFollows(w0, w2)
  {
    var io0, io1, io2 := w0.appender.io, w1.appender.io, w2.appender.io;
    assert io2[..|io0|] == io2[..|io1|][..|io0|];
    assert io2[|io0|..] == io1[|io0|..] + io2[|io1|..];
    WrittenBytesAppend(io1[|io0|..], io2[|io1|..]);
  }
}
