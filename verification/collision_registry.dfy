/**
 * The context-wide map from appender name to the file name pattern that
 * appender declared, used to detect two rolling appenders that would roll into
 * the same files (RollingFileAppender.java lines 122-151 and 173-175).
 */
module CollisionRegistry {
  import opened Wrappers
  import opened Policies

  /** Appender name to declared pattern; a pattern may have been null when stored. */
  type Registry = map<string, Option<FileNamePattern>>

  /** The names whose registered pattern equals `p`. */
  function Owners(m: Registry, p: FileNamePattern): set<string>
  {
    set k | k in m && m[k] == Some(p)
  }

  /**
   * `m2` is `m` with `pattern` stored under `name` when a name is given, and
   * every other entry untouched.
   */
  predicate StoredUnder(m: Registry, m2: Registry, name: Option<string>, pattern: Option<FileNamePattern>)
  {
    && (name.Some? ==> name.value in m2 && m2[name.value] == pattern)
    && (forall k :: k in m2 && (name.None? || k != name.value) ==> k in m && m2[k] == m[k])
    && (forall k :: k in m && (name.None? || k != name.value) ==> k in m2)
  }

  /** `m2` is `m` without the entry for `name`, every other entry untouched. */
  predicate RemovedFrom(m: Registry, m2: Registry, name: string)
  {
    && name !in m2
    && (forall k :: k in m2 ==> k in m && m2[k] == m[k])
    && (forall k :: k in m && k != name ==> k in m2)
  }

  /** Outcome of the registry check: the code either throws or answers. */
  datatype CheckResult =
    | NullPattern
    | Checked(collision: bool, owners: set<string>, registry: Option<Registry>)

  /**
   * innerCheckForFileNamePatternCollisionInPreviousRFA: compares `pattern`
   * with every registered pattern, then stores `pattern` under `name` whether or
   * not a collision was found. A null pattern is dereferenced by the comparison,
   * so with a non-empty registry the call throws.
   */
  function InnerCheck(registry: Option<Registry>, name: Option<string>, pattern: Option<FileNamePattern>): (r: CheckResult)
    ensures registry.None? ==> r == Checked(false, {}, None)
    ensures r.NullPattern? <==> registry.Some? && pattern.None? && registry.value != map[]
    ensures r.Checked? ==> (r.collision <==> r.owners != {})
    ensures r.Checked? && registry.Some? ==>
              forall k :: k in r.owners <==> k in registry.value && pattern.Some? && registry.value[k] == pattern
    ensures r.Checked? && registry.Some? ==>
              r.registry.Some? && StoredUnder(registry.value, r.registry.value, name, pattern)
  {
    match registry
    case None => Checked(false, {}, None)
    case Some(m) =>
      if pattern.None? && m != map[] then NullPattern
      else
        var owners := if pattern.Some? then Owners(m, pattern.value) else {};
        Checked(owners != {}, owners, if name.Some? then Some(m[name.value := pattern]) else registry)
  }

  /**
   * The loop of lines 141-146 as written: visits the entries in an unspecified
   * order and reports each one whose pattern equals `p`. Whatever the order,
   * it reports exactly the owners, each once, and agrees with InnerCheck.
   */
  method ScanEntries(m: Registry, p: FileNamePattern) returns (collisionsDetected: bool, reported: seq<string>)
    ensures forall k :: k in reported <==> k in m && m[k] == Some(p)
    ensures forall i, j :: 0 <= i < j < |reported| ==> reported[i] != reported[j]
    ensures collisionsDetected <==> |reported| > 0
    ensures collisionsDetected == InnerCheck(Some(m), None, Some(p)).collision
  {
    collisionsDetected := false;
    reported := [];
    var remaining := m.Keys;
    while remaining != {}
      invariant remaining <= m.Keys
      invariant forall k :: k in reported <==> k in m && k !in remaining && m[k] == Some(p)
      invariant forall i, j :: 0 <= i < j < |reported| ==> reported[i] != reported[j]
      invariant collisionsDetected <==> |reported| > 0
      decreases remaining
    {
      var k :| k in remaining;
      if m[k] == Some(p) {
        reported := reported + [k];
        collisionsDetected := true;
      }
      remaining := remaining - {k};
    }
    if collisionsDetected {
      assert reported[0] in Owners(m, p);
    } else {
      assert forall k :: k !in Owners(m, p);
    }
  }
}
