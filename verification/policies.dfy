/**
 * The rolling and triggering policies an appender is wired to. Their internal
 * logic (how names are computed, how triggers decide) lives outside this model;
 * a policy is described by the capabilities its class implements and by the
 * part of its state the appender reads or changes.
 */
module Policies {
  import opened Wrappers

  /** Object identity of a policy instance: the appender holds references. */
  type Ref = nat

  /** The compression mode a rolling policy derives from its file name pattern. */
  datatype CompressionMode = NoCompression | Gz | Zip

  /** A file name pattern; equality is structural, as for `FileNamePattern.equals`. */
  datatype FileNamePattern = FileNamePattern(pattern: string)

  /**
   * A policy object.
   *  - `isRolling`: its class implements `RollingPolicy`;
   *  - `isTriggering`: its class implements `TriggeringPolicy`;
   *  - `isRollingBase`: its class extends `RollingPolicyBase` and so owns the
   *    (possibly null) `fileNamePattern` field;
   *  - `followsRawFile`: its `getActiveFileName()` answers the parent
   *    appender's raw File property whenever that property is set, as the
   *    RollingPolicyBase policies shipped with logback do;
   *  - `activeFileName`: the name the policy computes for itself, which
   *    `getActiveFileName()` answers otherwise;
   *  - `lengthCounter`: what `getLengthCounter()` answers, null or a counter
   *    holding the given byte count;
   *  - `started`: the policy's own life-cycle flag.
   */
  datatype Policy = Policy(
    isRolling: bool,
    isTriggering: bool,
    isRollingBase: bool,
    followsRawFile: bool,
    fileNamePattern: Option<FileNamePattern>,
    compression: CompressionMode,
    activeFileName: string,
    lengthCounter: Option<int>,
    started: bool)

  /**
   * What `getActiveFileName()` of `p` answers while its parent appender's raw
   * File property is `rawFile`.
   */
  function ActiveName(p: Policy, rawFile: Option<string>): string
  {
    if p.followsRawFile && rawFile.Some? then rawFile.value else p.activeFileName
  }
}
