/** The walk of one owner's schema between its current version and a target version. */
module Migrations {
  import opened Wrappers

  /** A script a step runs, by name; what it makes of a schema is the database's: None is an error that rolls
      back. */
  type Script = nat

  /** One registered step. Its scripts may be missing. */
  datatype Migration = Migration(version: int, minCompatible: int, up: Option<Script>, down: Option<Script>)

  /** The registry rule: position i holds version i + 2, and no step asks for more than itself. */
  predicate Contiguous(registry: seq<Migration>) {
    forall i :: 0 <= i < |registry| ==>
      registry[i].version == i + 2 && 0 <= registry[i].minCompatible <= registry[i].version
  }

  method Validate(registry: seq<Migration>) returns (ok: bool)
    ensures ok <==> Contiguous(registry)
  {
    for i := 0 to |registry|
      invariant Contiguous(registry[..i])
    {
      assert registry[..i + 1][i] == registry[i];
      var m := registry[i];
      if m.version != i + 2 || m.minCompatible < 0 || m.minCompatible > m.version {
        return false;
      }
    }
    assert registry[..|registry|] == registry;
    return true;
  }

  datatype StepType = StepUp | StepDown

  /** What a step runs and the version it lands at. */
  datatype Step = Step(version: int, minCompatible: int, apply: Script)

  /** A step to the version it moves to, up, or from, down. A missing function cannot be run. */
  function ToStep(m: Migration, kind: StepType, target: int): Result<Step> {
    var apply := if kind.StepUp? then m.up else m.down;
    var minCompatible := if kind.StepUp? then m.minCompatible else 0;
    if apply.None? then Err("no function defined")
    else if target < 1 then Err("step version must be >= 1")
    else if minCompatible < 0 || minCompatible > target then Err("minCompatibleVersion out of range")
    else Ok(Step(target, minCompatible, apply.value))
  }

  /** One owner: its schema and the versions its migration log records as landed, the baseline first. A step may
      also fail for a reason of the database's own, here by the number of the attempt. */
  class Owner<S> {
    const sql: (Script, S) -> Option<S>
    const fails: nat -> bool
    var attempts: nat
    var schema: S
    var log: seq<int>

    constructor (sql: (Script, S) -> Option<S>, fails: nat -> bool, schema: S)
      ensures this.sql == sql && this.fails == fails && this.schema == schema && log == [1]
    {
      this.sql, this.fails := sql, fails;
      attempts := 0;
      this.schema := schema;
      log := [1];
    }

    function Version(): int
      reads this`log
      requires log != []
    {
      log[|log| - 1]
    }

    /** Applies a step and records its version in one transaction, or does neither. */
    method RunStep(step: Step) returns (ok: bool)
      modifies this
      ensures ok ==> sql(step.apply, old(schema)) == Some(schema) && log == old(log) + [step.version]
      ensures !ok ==> schema == old(schema) && log == old(log)
    {
      var failed := fails(attempts);
      attempts := attempts + 1;
      var changed := sql(step.apply, schema);
      if failed || changed.None? {
        return false;
      }
      schema := changed.value;
      log := log + [step.version];
      return true;
    }

    method RunMigration(m: Migration, kind: StepType, target: int) returns (ok: bool)
      modifies this
      ensures ok ==> ToStep(m, kind, target).Ok?
      ensures ok ==> sql(ToStep(m, kind, target).value.apply, old(schema)) == Some(schema)
      ensures ok ==> log == old(log) + [target]
      ensures !ok ==> schema == old(schema) && log == old(log)
    {
      var step := ToStep(m, kind, target);
      if step.Err? {
        return false;
      }
      ok := RunStep(step.value);
    }
  }

  // ---- What a walk does to a schema ----

  /** The schema after the steps start+1..goal, up; None if one of them is missing or fails. */
  function Climb<S>(sql: (Script, S) -> Option<S>, registry: seq<Migration>, s: S, start: int, goal: int): Option<S>
    requires Contiguous(registry) && 1 <= start <= goal <= |registry| + 1
    decreases goal - start
  {
    if goal == start then Some(s)
    else
      var before := Climb(sql, registry, s, start, goal - 1);
      var up := registry[goal - 2].up;
      if before.Some? && up.Some? then sql(up.value, before.value) else None
  }

  /** The schema after rolling back the steps of versions start..goal+1, down. */
  function Descend<S>(sql: (Script, S) -> Option<S>, registry: seq<Migration>, s: S, start: int, goal: int): Option<S>
    requires Contiguous(registry) && 1 <= goal <= start <= |registry| + 1
    decreases start - goal
  {
    if goal == start then Some(s)
    else
      var before := Descend(sql, registry, s, start, goal + 1);
      var down := registry[goal - 1].down;
      if before.Some? && down.Some? then sql(down.value, before.value) else None
  }

  /** start+1, .., goal */
  function Ascending(start: int, goal: int): seq<int>
    decreases goal - start
  {
    if goal <= start then [] else Ascending(start, goal - 1) + [goal]
  }

  /** start-1, .., goal */
  function Descending(start: int, goal: int): seq<int>
    decreases start - goal
  {
    if goal >= start then [] else Descending(start, goal + 1) + [goal]
  }

  datatype Outcome = Done | NewerThanBuild | FailedUpTo(version: int) | FailedDownTo(version: int)

  /** Walks an owner to the target. It applies exactly the steps between, each once and in order, and stops at
      the first that fails, at the version of the last one that landed. */
  method MigrateOwner<S>(owner: Owner<S>, target: int, registry: seq<Migration>) returns (outcome: Outcome)
    requires Contiguous(registry) && 1 <= target <= |registry| + 1
    requires owner.log != [] && owner.Version() >= 1
    modifies owner
    ensures owner.log != []
    ensures var current := old(owner.Version());
            var reached := owner.Version();
            && (outcome == NewerThanBuild <==> current > |registry| + 1)
            && (outcome == NewerThanBuild ==> owner.log == old(owner.log) && owner.schema == old(owner.schema))
            && (outcome == Done ==> reached == target)
            && (outcome.FailedUpTo? ==> current <= reached < target && outcome.version == reached + 1)
            && (outcome.FailedDownTo? ==> target < reached <= current && outcome.version == reached - 1)
            && (outcome != NewerThanBuild && target >= current ==>
                  && !outcome.FailedDownTo?
                  && owner.log == old(owner.log) + Ascending(current, reached)
                  && Climb(owner.sql, registry, old(owner.schema), current, reached) == Some(owner.schema))
            && (outcome != NewerThanBuild && target <= current ==>
                  && !outcome.FailedUpTo?
                  && owner.log == old(owner.log) + Descending(current, reached)
                  && Descend(owner.sql, registry, old(owner.schema), current, reached) == Some(owner.schema))
  {
    var current := owner.Version();
    if current > |registry| + 1 {
      return NewerThanBuild;
    }
    if target > current {
      for v := current + 1 to target + 1
        invariant owner.log != [] && owner.Version() == v - 1
        invariant owner.log == old(owner.log) + Ascending(current, v - 1)
        invariant Climb(owner.sql, registry, old(owner.schema), current, v - 1) == Some(owner.schema)
      {
        var ok := owner.RunMigration(registry[v - 2], StepUp, registry[v - 2].version);
        if !ok {
          return FailedUpTo(v);
        }
      }
    } else if target < current {
      for v := current downto target
        invariant owner.log != [] && owner.Version() == v
        invariant owner.log == old(owner.log) + Descending(current, v)
        invariant Descend(owner.sql, registry, old(owner.schema), current, v) == Some(owner.schema)
      {
        var ok := owner.RunMigration(registry[v - 1], StepDown, registry[v - 1].version - 1);
        if !ok {
          return FailedDownTo(v);
        }
      }
    }
    return Done;
  }

  // ---- Up then down ----

  /** Each step's Down undoes its Up. */
  ghost predicate Reversible<S(!new)>(sql: (Script, S) -> Option<S>, registry: seq<Migration>) {
    forall i :: 0 <= i < |registry| ==> Undoes(sql, registry[i])
  }

  ghost predicate Undoes<S(!new)>(sql: (Script, S) -> Option<S>, m: Migration) {
    m.up.Some? ==>
      forall s :: sql(m.up.value, s).Some? ==> m.down.Some? && sql(m.down.value, sql(m.up.value, s).value) == Some(s)
  }

  /** A walk down starts with the step of the version it starts from. */
  lemma {:induction false} DescendFromTop<S>(
    sql: (Script, S) -> Option<S>, registry: seq<Migration>, s: S, start: int, goal: int)
    requires Contiguous(registry) && 1 <= goal < start <= |registry| + 1
    ensures var down := registry[start - 2].down;
            Descend(sql, registry, s, start, goal) ==
            if down.Some? && sql(down.value, s).Some? then
              Descend(sql, registry, sql(down.value, s).value, start - 1, goal)
            else None
    decreases start - goal
  {
    if goal < start - 1 {
      DescendFromTop(sql, registry, s, start, goal + 1);
    } else {
      assert Descend(sql, registry, s, start, start) == Some(s);
    }
  }

  /** Rolling back what a walk up did restores the schema it started from. */
  lemma {:induction false} UpThenDownRestores<S(!new)>(
    sql: (Script, S) -> Option<S>, registry: seq<Migration>, s: S, start: int, goal: int)
    requires Contiguous(registry) && Reversible(sql, registry) && 1 <= start <= goal <= |registry| + 1
    requires Climb(sql, registry, s, start, goal).Some?
    ensures Descend(sql, registry, Climb(sql, registry, s, start, goal).value, goal, start) == Some(s)
    decreases goal - start
  {
    if start < goal {
      UpThenDownRestores(sql, registry, s, start, goal - 1);
      DescendFromTop(sql, registry, Climb(sql, registry, s, start, goal).value, goal, start);
    }
  }

  /** A walk, up or down, passes every version between its ends once. */
  lemma {:induction false} WalksAreExact(start: int, goal: int)
    ensures |Ascending(start, goal)| == if goal <= start then 0 else goal - start
    ensures forall i :: 0 <= i < |Ascending(start, goal)| ==> Ascending(start, goal)[i] == start + 1 + i
    ensures |Descending(start, goal)| == if start <= goal then 0 else start - goal
    ensures forall i :: 0 <= i < |Descending(start, goal)| ==> Descending(start, goal)[i] == start - 1 - i
    decreases if goal > start then goal - start else start - goal
  {
    if goal > start {
      WalksAreExact(start, goal - 1);
    } else if goal < start {
      WalksAreExact(start, goal + 1);
    }
  }
}
